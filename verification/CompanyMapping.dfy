/** The refinement loop that checks the mapping of source roots to target companies. */
module CompanyMapping {
  import opened Basics

  datatype Resolution = Mapped(companyId: string, companyCode: string) | Quarantined

  /** Two mapped roots agree on both, or on neither, of company id and company code. */
  predicate Compatible(a: Resolution, b: Resolution) {
    a.Mapped? && b.Mapped? ==> (a.companyId == b.companyId <==> a.companyCode == b.companyCode)
  }

  ghost predicate OneToOne(roots: seq<Resolution>) {
    forall i, j | 0 <= i < |roots| && 0 <= j < |roots| :: Compatible(roots[i], roots[j])
  }

  /** The identifiers and codes the schema admits are not empty. */
  predicate WellFormed(roots: seq<Resolution>) {
    forall i | 0 <= i < |roots| && roots[i].Mapped? :: roots[i].companyId != "" && roots[i].companyCode != ""
  }

  /** The company id that the last root with this code maps to. */
  function LastId(roots: seq<Resolution>, code: string): Option<string> {
    if roots == [] then None
    else
      var r := roots[|roots| - 1];
      if r.Mapped? && r.companyCode == code then Some(r.companyId) else LastId(roots[..|roots| - 1], code)
  }

  function LastCode(roots: seq<Resolution>, id: string): Option<string> {
    if roots == [] then None
    else
      var r := roots[|roots| - 1];
      if r.Mapped? && r.companyId == id then Some(r.companyCode) else LastCode(roots[..|roots| - 1], id)
  }

  /** The root does not fit the last root before it with the same code or the last one with the same id. */
  predicate Raises(before: seq<Resolution>, r: Resolution) {
    r.Mapped?
    && (LastId(before, r.companyCode) !in [None, Some(r.companyId)] || LastCode(before, r.companyId) !in [None, Some(r.companyCode)])
  }

  /** The places of the roots that raise an issue. */
  function Issues(roots: seq<Resolution>): seq<nat> {
    if roots == [] then []
    else
      var init := roots[..|roots| - 1];
      Issues(init) + if Raises(init, roots[|roots| - 1]) then [|init|] else []
  }

  lemma {:induction false} LastIdMeans(roots: seq<Resolution>, code: string)
    ensures LastId(roots, code).Some? ==>
      exists i :: 0 <= i < |roots| && roots[i] == Mapped(LastId(roots, code).value, code)
    ensures LastId(roots, code).None? ==> forall i | 0 <= i < |roots| && roots[i].Mapped? :: roots[i].companyCode != code
  {
    if roots != [] {
      var init := roots[..|roots| - 1];
      LastIdMeans(init, code);
      if LastId(roots, code).Some? && LastId(roots, code) == LastId(init, code) && !(roots[|init|].Mapped? && roots[|init|].companyCode == code) {
        var i :| 0 <= i < |init| && init[i] == Mapped(LastId(init, code).value, code);
        assert roots[i] == Mapped(LastId(roots, code).value, code);
      }
    }
  }

  lemma {:induction false} LastCodeMeans(roots: seq<Resolution>, id: string)
    ensures LastCode(roots, id).Some? ==>
      exists i :: 0 <= i < |roots| && roots[i] == Mapped(id, LastCode(roots, id).value)
    ensures LastCode(roots, id).None? ==> forall i | 0 <= i < |roots| && roots[i].Mapped? :: roots[i].companyId != id
  {
    if roots != [] {
      var init := roots[..|roots| - 1];
      LastCodeMeans(init, id);
      if LastCode(roots, id).Some? && LastCode(roots, id) == LastCode(init, id) && !(roots[|init|].Mapped? && roots[|init|].companyId == id) {
        var i :| 0 <= i < |init| && init[i] == Mapped(id, LastCode(init, id).value);
        assert roots[i] == Mapped(id, LastCode(roots, id).value);
      }
    }
  }

  ghost predicate FitsAll(before: seq<Resolution>, r: Resolution) {
    forall i | 0 <= i < |before| :: Compatible(before[i], r)
  }

  /** As long as the roots are one to one, looking at the last one with a code or an id is as good as looking at all. */
  lemma RaisesExactly(before: seq<Resolution>, r: Resolution)
    requires OneToOne(before)
    ensures Raises(before, r) <==> !FitsAll(before, r)
  {
    if r.Mapped? {
      LastIdMeans(before, r.companyCode);
      LastCodeMeans(before, r.companyId);
      if Raises(before, r) {
        if LastId(before, r.companyCode) !in [None, Some(r.companyId)] {
          var i :| 0 <= i < |before| && before[i] == Mapped(LastId(before, r.companyCode).value, r.companyCode);
          assert !Compatible(before[i], r);
        } else {
          var i :| 0 <= i < |before| && before[i] == Mapped(r.companyId, LastCode(before, r.companyId).value);
          assert !Compatible(before[i], r);
        }
      } else {
        forall i | 0 <= i < |before| ensures Compatible(before[i], r) {
          SilentFits(before, r, i);
        }
      }
    }
  }

  lemma SilentFits(before: seq<Resolution>, r: Resolution, i: nat)
    requires OneToOne(before) && r.Mapped? && !Raises(before, r) && i < |before|
    ensures Compatible(before[i], r)
  {
    LastIdMeans(before, r.companyCode);
    LastCodeMeans(before, r.companyId);
    if LastId(before, r.companyCode).Some? {
      var j :| 0 <= j < |before| && before[j] == Mapped(LastId(before, r.companyCode).value, r.companyCode);
      assert before[j] == r && Compatible(before[i], before[j]);
    }
  }

  lemma OneToOneExtends(roots: seq<Resolution>)
    requires roots != []
    ensures OneToOne(roots) <==> OneToOne(roots[..|roots| - 1]) && FitsAll(roots[..|roots| - 1], roots[|roots| - 1])
  {
    var init, r := roots[..|roots| - 1], roots[|roots| - 1];
    if OneToOne(roots) {
      forall i | 0 <= i < |init| ensures Compatible(init[i], r) {
        assert Compatible(roots[i], roots[|init|]);
      }
      forall i, j | 0 <= i < |init| && 0 <= j < |init| ensures Compatible(init[i], init[j]) {
        assert Compatible(roots[i], roots[j]);
      }
    }
    if OneToOne(init) && FitsAll(init, r) {
      forall i, j | 0 <= i < |roots| && 0 <= j < |roots| ensures Compatible(roots[i], roots[j]) {
        if i < |init| && j < |init| {
          assert Compatible(init[i], init[j]);
        } else if i < |init| {
          assert Compatible(init[i], r);
        } else if j < |init| {
          assert Compatible(init[j], r);
        }
      }
    }
  }

  /** No issue is raised if and only if the mapping is one to one, and the first issue is raised by the first root
      that does not fit all roots before it, although the maps remember the last roots only. */
  lemma {:induction false} IssuesExact(roots: seq<Resolution>)
    ensures Issues(roots) == [] <==> OneToOne(roots)
    ensures Issues(roots) != [] ==>
      && Issues(roots)[0] < |roots| && OneToOne(roots[..Issues(roots)[0]])
      && !FitsAll(roots[..Issues(roots)[0]], roots[Issues(roots)[0]])
  {
    if roots != [] {
      var init := roots[..|roots| - 1];
      IssuesExact(init);
      OneToOneExtends(roots);
      if Issues(init) == [] {
        RaisesExactly(init, roots[|init|]);
      } else {
        assert Issues(roots)[0] == Issues(init)[0];
        assert init[..Issues(init)[0]] == roots[..Issues(roots)[0]];
      }
    }
  }

  /** Root `j` is the last one before root `i` with the same code. */
  ghost predicate LastWithCode(roots: seq<Resolution>, j: nat, i: nat)
    requires j < i < |roots| && roots[i].Mapped?
  {
    && roots[j].Mapped? && roots[j].companyCode == roots[i].companyCode
    && forall k | j < k < i :: !(roots[k].Mapped? && roots[k].companyCode == roots[i].companyCode)
  }

  ghost predicate LastWithId(roots: seq<Resolution>, j: nat, i: nat)
    requires j < i < |roots| && roots[i].Mapped?
  {
    && roots[j].Mapped? && roots[j].companyId == roots[i].companyId
    && forall k | j < k < i :: !(roots[k].Mapped? && roots[k].companyId == roots[i].companyId)
  }

  /** The root contradicts the last earlier root with its code, or the last earlier root with its id. */
  ghost predicate Contradicts(roots: seq<Resolution>, i: nat)
    requires i < |roots|
  {
    && roots[i].Mapped?
    && ((exists j: nat | j < i :: LastWithCode(roots, j, i) && roots[j].companyId != roots[i].companyId)
        || (exists j: nat | j < i :: LastWithId(roots, j, i) && roots[j].companyCode != roots[i].companyCode))
  }

  lemma {:induction false} LastIdAt(roots: seq<Resolution>, n: nat, code: string)
    requires n <= |roots|
    ensures match LastId(roots[..n], code)
      case None => forall k: nat | k < n :: !(roots[k].Mapped? && roots[k].companyCode == code)
      case Some(id) => exists j: nat | j < n :: roots[j] == Mapped(id, code) && forall k | j < k < n :: !(roots[k].Mapped? && roots[k].companyCode == code)
  {
    if n > 0 {
      assert roots[..n][..n - 1] == roots[..n - 1];
      LastIdAt(roots, n - 1, code);
    }
  }

  lemma {:induction false} LastCodeAt(roots: seq<Resolution>, n: nat, id: string)
    requires n <= |roots|
    ensures match LastCode(roots[..n], id)
      case None => forall k: nat | k < n :: !(roots[k].Mapped? && roots[k].companyId == id)
      case Some(code) => exists j: nat | j < n :: roots[j] == Mapped(id, code) && forall k | j < k < n :: !(roots[k].Mapped? && roots[k].companyId == id)
  {
    if n > 0 {
      assert roots[..n][..n - 1] == roots[..n - 1];
      LastCodeAt(roots, n - 1, id);
    }
  }

  lemma RaisesContradiction(roots: seq<Resolution>, i: nat)
    requires i < |roots|
    ensures Raises(roots[..i], roots[i]) <==> Contradicts(roots, i)
  {
    if roots[i].Mapped? {
      CodeContradiction(roots, i);
      IdContradiction(roots, i);
    }
  }

  lemma CodeContradiction(roots: seq<Resolution>, i: nat)
    requires i < |roots| && roots[i].Mapped?
    ensures LastId(roots[..i], roots[i].companyCode) !in [None, Some(roots[i].companyId)]
      <==> exists j: nat | j < i :: LastWithCode(roots, j, i) && roots[j].companyId != roots[i].companyId
  {
    LastIdAt(roots, i, roots[i].companyCode);
    if LastId(roots[..i], roots[i].companyCode).Some? {
      var j: nat :| j < i && roots[j] == Mapped(LastId(roots[..i], roots[i].companyCode).value, roots[i].companyCode)
        && forall k | j < k < i :: !(roots[k].Mapped? && roots[k].companyCode == roots[i].companyCode);
      assert LastWithCode(roots, j, i);
    }
  }

  lemma IdContradiction(roots: seq<Resolution>, i: nat)
    requires i < |roots| && roots[i].Mapped?
    ensures LastCode(roots[..i], roots[i].companyId) !in [None, Some(roots[i].companyCode)]
      <==> exists j: nat | j < i :: LastWithId(roots, j, i) && roots[j].companyCode != roots[i].companyCode
  {
    LastCodeAt(roots, i, roots[i].companyId);
    if LastCode(roots[..i], roots[i].companyId).Some? {
      var j: nat :| j < i && roots[j] == Mapped(roots[i].companyId, LastCode(roots[..i], roots[i].companyId).value)
        && forall k | j < k < i :: !(roots[k].Mapped? && roots[k].companyId == roots[i].companyId);
      assert LastWithId(roots, j, i);
    }
  }

  /** All issues, in the order of the roots: exactly the roots that contradict the last earlier one with their code or id. */
  lemma {:induction false} IssuesAreContradictions(roots: seq<Resolution>, n: nat)
    requires n <= |roots|
    ensures forall i: nat :: i in Issues(roots[..n]) <==> i < n && Contradicts(roots, i)
    ensures forall k, l | 0 <= k < l < |Issues(roots[..n])| :: Issues(roots[..n])[k] < Issues(roots[..n])[l]
  {
    if n > 0 {
      assert roots[..n][..n - 1] == roots[..n - 1];
      IssuesAreContradictions(roots, n - 1);
      RaisesContradiction(roots, n - 1);
      var before := Issues(roots[..n - 1]);
      forall k | 0 <= k < |before| ensures before[k] < n - 1 {
        assert before[k] in before;
      }
    }
  }

  /** What the two maps hold after some roots. */
  ghost predicate Remembered(roots: seq<Resolution>, idsByCode: map<string, string>, codesById: map<string, string>) {
    && (forall c :: LastId(roots, c) == if c in idsByCode then Some(idsByCode[c]) else None)
    && (forall d :: LastCode(roots, d) == if d in codesById then Some(codesById[d]) else None)
    && (forall c | c in idsByCode :: idsByCode[c] != "")
    && (forall d | d in codesById :: codesById[d] != "")
  }

  lemma RememberedNext(roots: seq<Resolution>, r: Resolution, idsByCode: map<string, string>, codesById: map<string, string>)
    requires Remembered(roots, idsByCode, codesById) && (r.Mapped? ==> r.companyId != "" && r.companyCode != "")
    ensures r.Quarantined? ==> Remembered(roots + [r], idsByCode, codesById)
    ensures r.Mapped? ==> Remembered(roots + [r], idsByCode[r.companyCode := r.companyId], codesById[r.companyId := r.companyCode])
  {
    assert (roots + [r])[..|roots|] == roots;
  }

  /** The loop over the roots. A looked-up value counts only when it is not empty. */
  method CheckMapping(roots: seq<Resolution>) returns (issues: seq<nat>)
    requires WellFormed(roots)
    ensures issues == Issues(roots)
    ensures issues == [] <==> OneToOne(roots)
  {
    issues := [];
    var idsByCode: map<string, string> := map[];
    var codesById: map<string, string> := map[];
    for i := 0 to |roots|
      invariant issues == Issues(roots[..i])
      invariant Remembered(roots[..i], idsByCode, codesById)
    {
      var r := roots[i];
      assert roots[..i + 1] == roots[..i] + [r];
      assert roots[..i + 1][..i] == roots[..i];
      RememberedNext(roots[..i], r, idsByCode, codesById);
      if r.Mapped? {
        var existingId := if r.companyCode in idsByCode then idsByCode[r.companyCode] else "";
        var existingCode := if r.companyId in codesById then codesById[r.companyId] else "";
        if (existingId != "" && existingId != r.companyId) || (existingCode != "" && existingCode != r.companyCode) {
          issues := issues + [i];
        }
        idsByCode := idsByCode[r.companyCode := r.companyId];
        codesById := codesById[r.companyId := r.companyCode];
      }
    }
    assert roots[..|roots|] == roots;
    IssuesExact(roots);
  }
}
