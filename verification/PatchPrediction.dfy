/** What an applied proposal leaves behind, and when a dry run foretells it. */
module PatchPrediction {
  import opened Common
  import opened Workspace
  import opened PatchExecution

  // ---- Applied runs ----------------------------------------------------------

  predicate Matching(g: Guard, ops: seq<Operation>, rs: seq<Receipt>) {
    |rs| <= |ops| && forall i | 0 <= i < |rs| :: rs[i].index == i && Target(g, ops[i]) == Success(rs[i].target)
  }

  lemma ApplyNext(g: Guard, w: World, ops: seq<Operation>)
    requires ops != []
    ensures var o, before := Execution(g, w, Apply, ops), Execution(g, w, Apply, ops[..|ops| - 1]);
      || (o.error.Some? && o.world == before.world && o.receipts == before.receipts)
      || (o.error.None? && before.error.None?
          && exists r :: o.receipts == before.receipts + [r] && o.world == Account(before.world, r)
               && r.index == |ops| - 1 && Target(g, ops[|ops| - 1]) == Success(r.target))
  {
    var before, o := Execution(g, w, Apply, ops[..|ops| - 1]), Execution(g, w, Apply, ops);
    if o.error.None? {
      var r := Perform(g, before.world, Apply, |ops| - 1, ops[|ops| - 1]).value;
      assert o.receipts == before.receipts + [r];
    }
  }

  /**
   The receipts account for the whole change: the workspace after APPLY is the one before
   with the changes of the receipts made in order, whether or not the run failed. There is one
   receipt per operation up to the first that failed, and each target is safely under the root.
   */
  lemma {:induction false} ApplyIsAccountedFor(g: Guard, w: World, ops: seq<Operation>)
    ensures var o := Execution(g, w, Apply, ops);
      && o.world == AccountAll(w, o.receipts)
      && Matching(g, ops, o.receipts)
      && (o.error.None? <==> |o.receipts| == |ops|)
  {
    if ops != [] {
      var init := ops[..|ops| - 1];
      ApplyIsAccountedFor(g, w, init);
      ApplyNext(g, w, ops);
      var before, o := Execution(g, w, Apply, init), Execution(g, w, Apply, ops);
      if o.error.None? {
        assert o.receipts[..|before.receipts|] == before.receipts;
      }
    }
  }

  /** On failure the workspace is what the operations before the failing one make of it. */
  lemma {:induction false} FailureKeepsPrefix(g: Guard, w: World, ops: seq<Operation>)
    ensures var o := Execution(g, w, Apply, ops);
      && |o.receipts| <= |ops|
      && Execution(g, w, Apply, ops[..|o.receipts|]) == Outcome(o.world, o.receipts, None)
  {
    if ops == [] {
    } else {
      var init := ops[..|ops| - 1];
      var before, o := Execution(g, w, Apply, init), Execution(g, w, Apply, ops);
      FailureKeepsPrefix(g, w, init);
      ReceiptsCount(g, w, init);
      ReceiptsCount(g, w, ops);
      if o.error.None? {
        assert ops[..|o.receipts|] == ops;
      } else {
        assert o.world == before.world && o.receipts == before.receipts;
        assert ops[..|o.receipts|] == init[..|o.receipts|];
      }
    }
  }

  lemma ReceiptsCount(g: Guard, w: World, ops: seq<Operation>)
    ensures var o := Execution(g, w, Apply, ops);
      |o.receipts| <= |ops| && (o.error.None? <==> |o.receipts| == |ops|)
  {
    ApplyIsAccountedFor(g, w, ops);
  }

  /** The last receipt that changed `p`, if any. */
  function LastChange(rs: seq<Receipt>, p: Location): Option<Receipt> {
    if rs == [] then None
    else if rs[|rs| - 1].changed && rs[|rs| - 1].target == p then Some(rs[|rs| - 1])
    else LastChange(rs[..|rs| - 1], p)
  }

  /** Each file holds what the last receipt that changed it says; no other file is touched. */
  lemma {:induction false} EachFileAfterwards(w: World, rs: seq<Receipt>, p: Location)
    ensures var after := AccountAll(w, rs);
      if LastChange(rs, p).Some? then p in after.files && after.files[p] == Text(LastChange(rs, p).value.after)
      else (p in after.files <==> p in w.files) && (p in w.files ==> after.files[p] == w.files[p])
  {
    if rs != [] {
      EachFileAfterwards(w, rs[..|rs| - 1], p);
    }
  }

  /** An operation that changes nothing writes nothing; an empty new file is not created. */
  lemma EmptyNewFileIsNotCreated(g: Guard, w: World, op: Operation, p: Location)
    requires Target(g, op) == Success(p) && op.kind.WriteFile? && op.content == ""
    requires Look(w, p).Missing? && Validate(g, op, p, Missing).None?
    ensures var o := Execution(g, w, Apply, [op]);
      o.world == w && o.error.None? && |o.receipts| == 1 && !o.receipts[0].changed
  {
    assert [op][..0] == [];
    assert Execution(g, w, Apply, []) == Outcome(w, [], None);
  }

  /** Every target a run reports lies under the root, clear of blocked names. */
  lemma TargetsAreSafe(g: Guard, w: World, ops: seq<Operation>, i: nat)
    requires i < |Execution(g, w, Apply, ops).receipts|
    ensures var p := Execution(g, w, Apply, ops).receipts[i].target;
      g.root <= p && forall k | |g.root| <= k < |p| :: p[k] !in g.blocked && p[k] != ".."
  {
    ApplyIsAccountedFor(g, w, ops);
    AcceptedIsUnderRootUnblocked(g.root, g.blocked, ops[i].path);
  }

  /** A replacement is made at the leftmost match of a text with no second match after it. */
  lemma ReplacementIsAtTheMatch(g: Guard, index: nat, op: Operation, p: Location, text: string)
    requires g.root <= p && op.kind.ReplaceText? && Judge(g, index, op, p, File(Text(text))).Success?
    ensures var r, before := Judge(g, index, op, p, File(Text(text))).value, Newlines(text);
      && r.before == Some(before)
      && exists i: nat :: OnlyMatch(before, op.find, i)
           && r.after == before[..i] + op.replacement + before[i + |op.find|..]
  {
    CountOneIff(Newlines(text), op.find, op.replacement);
  }

  // ---- Dry runs --------------------------------------------------------------

  lemma {:induction false} DryRunWritesNothing(g: Guard, w: World, ops: seq<Operation>)
    ensures Execution(g, w, DryRun, ops).world == w
  {
    if ops != [] {
      DryRunWritesNothing(g, w, ops[..|ops| - 1]);
    }
  }

  predicate DistinctTargets(g: Guard, ops: seq<Operation>) {
    forall i, j | 0 <= i < j < |ops| && Target(g, ops[i]).Success? && Target(g, ops[j]).Success? ::
      Target(g, ops[i]).value != Target(g, ops[j]).value
  }

  /**
   Receipt `r`, coming after `before`, cannot be had for real: its target has become a
   directory, or it would be written below a file, one of the workspace or a new one.
   */
  predicate ClashesWith(w: World, before: seq<Receipt>, r: Receipt) {
    || (exists e | e in before :: e.changed && Above(r.target, e.target))
    || (r.changed && (exists q | q in w.files :: Above(q, r.target)))
    || (r.changed && exists e | e in before :: e.changed && Above(e.target, r.target))
  }

  /** A check on the receipts of a dry run, made before anything is applied. */
  predicate Clashes(w: World, rs: seq<Receipt>) {
    rs != [] && (Clashes(w, rs[..|rs| - 1]) || ClashesWith(w, rs[..|rs| - 1], rs[|rs| - 1]))
  }

  lemma {:induction false} AccountedKeys(w: World, rs: seq<Receipt>, q: Location)
    ensures q in AccountAll(w, rs).files <==> q in w.files || exists e | e in rs :: e.changed && e.target == q
    ensures q in AccountAll(w, rs).dirs <==> q in w.dirs || exists e | e in rs :: e.changed && Above(q, e.target)
  {
    if rs != [] {
      var init, last := rs[..|rs| - 1], rs[|rs| - 1];
      AccountedKeys(w, init, q);
      assert rs == init + [last];
      AncestorsAreAbove(q, last.target);
    }
  }

  lemma AncestorsAreAbove(q: Location, p: Location)
    ensures q in Ancestors(p) <==> Above(q, p)
  {
    if Above(q, p) {
      assert q == p[..|q|];
    }
  }

  /** What a target not written so far looks like. */
  lemma LookAfter(w: World, rs: seq<Receipt>, p: Location)
    requires forall e | e in rs :: e.target != p
    ensures Look(AccountAll(w, rs), p)
      == if Look(w, p).Missing? && (exists e | e in rs :: e.changed && Above(p, e.target)) then Directory else Look(w, p)
  {
    AccountedKeys(w, rs, p);
    NoChange(rs, p);
    EachFileAfterwards(w, rs, p);
  }

  lemma {:induction false} NoChange(rs: seq<Receipt>, p: Location)
    requires forall e | e in rs :: e.target != p
    ensures LastChange(rs, p).None?
  {
    if rs != [] {
      assert rs[|rs| - 1] in rs;
      NoChange(rs[..|rs| - 1], p);
    }
  }

  lemma WritableAfter(w: World, rs: seq<Receipt>, p: Location)
    ensures Writable(AccountAll(w, rs), p)
      <==> (forall q | q in w.files :: !Above(q, p)) && (forall e | e in rs :: e.changed ==> !Above(e.target, p))
  {
    var after := AccountAll(w, rs);
    forall q ensures q in after.files <==> q in w.files || exists e | e in rs :: e.changed && e.target == q {
      AccountedKeys(w, rs, q);
    }
  }

  /** No operation succeeds on a directory. */
  lemma DirectoriesAreRefused(g: Guard, index: nat, op: Operation, p: Location)
    requires g.root <= p
    ensures Judge(g, index, op, p, Directory).Failure?
  {
  }

  /** Without a clash nothing was written below a file of the workspace. */
  lemma {:induction false} NothingBelowFiles(w: World, rs: seq<Receipt>)
    requires !Clashes(w, rs)
    ensures forall e, q | e in rs && e.changed && q in w.files :: !Above(q, e.target)
  {
    if rs != [] {
      var init, last := rs[..|rs| - 1], rs[|rs| - 1];
      NothingBelowFiles(w, init);
      assert rs == init + [last];
    }
  }

  /** One operation for real, after the receipts `rs`, against the same operation in a dry run. */
  lemma NextAgreesIff(g: Guard, w: World, rs: seq<Receipt>, index: nat, op: Operation)
    requires !Clashes(w, rs)
    requires Target(g, op).Success? ==> forall e | e in rs :: e.target != Target(g, op).value
    ensures var dry, real_ := Perform(g, w, DryRun, index, op), Perform(g, AccountAll(w, rs), Apply, index, op);
      && (dry.Failure? ==> real_.Failure?)
      && (dry.Success? ==> if ClashesWith(w, rs, dry.value) then real_.Failure? else real_ == dry)
  {
    if Target(g, op).Success? {
      var p := Target(g, op).value;
      LookAfter(w, rs, p);
      WritableAfter(w, rs, p);
      DirectoriesAreRefused(g, index, op, p);
      NothingBelowFiles(w, rs);
    }
  }

  lemma {:induction false} DryReceiptsMatch(g: Guard, w: World, ops: seq<Operation>)
    ensures Matching(g, ops, Execution(g, w, DryRun, ops).receipts)
    ensures Execution(g, w, DryRun, ops).error.None? ==> |Execution(g, w, DryRun, ops).receipts| == |ops|
  {
    if ops != [] {
      DryReceiptsMatch(g, w, ops[..|ops| - 1]);
      DryRunWritesNothing(g, w, ops[..|ops| - 1]);
    }
  }

  /** A real run against the dry run of the same operations. */
  predicate Alike(w: World, dry: Outcome, real_: Outcome) {
    if Clashes(w, dry.receipts) then real_.error.Some? && |real_.receipts| < |dry.receipts|
    else real_.receipts == dry.receipts && (real_.error.Some? <==> dry.error.Some?)
  }

  /** As long as no receipt clashes both runs go on alike; at the first clash the real run stops. */
  lemma {:induction false} Lockstep(g: Guard, w: World, ops: seq<Operation>)
    requires DistinctTargets(g, ops)
    ensures Alike(w, Execution(g, w, DryRun, ops), Execution(g, w, Apply, ops))
  {
    if ops != [] {
      var init, op := ops[..|ops| - 1], ops[|ops| - 1];
      Lockstep(g, w, init);
      LockstepNext(g, w, init, op);
      assert ops == init + [op];
    }
  }

  /** One more operation after an outcome. */
  function Then(g: Guard, mode: Mode, o: Outcome, index: nat, op: Operation): Outcome {
    if o.error.Some? then o
    else
      match Perform(g, o.world, mode, index, op)
      case Failure(error) => o.(error := Some(error))
      case Success(r) => Outcome(if mode.Apply? then Account(o.world, r) else o.world, o.receipts + [r], None)
  }

  lemma ExecutionNext(g: Guard, w: World, mode: Mode, init: seq<Operation>, op: Operation)
    ensures Execution(g, w, mode, init + [op]) == Then(g, mode, Execution(g, w, mode, init), |init|, op)
  {
    assert (init + [op])[..|init|] == init;
  }

  lemma NewTarget(g: Guard, init: seq<Operation>, rs: seq<Receipt>, op: Operation)
    requires DistinctTargets(g, init + [op]) && Matching(g, init, rs) && Target(g, op).Success?
    ensures forall e | e in rs :: e.target != Target(g, op).value
  {
    var ops := init + [op];
    forall e | e in rs ensures e.target != Target(g, op).value {
      var i :| 0 <= i < |rs| && rs[i] == e;
      assert ops[i] == init[i] && ops[|init|] == op;
    }
  }

  lemma AlikeNext(g: Guard, w: World, dry: Outcome, real_: Outcome, index: nat, op: Operation)
    requires dry.world == w && real_.world == AccountAll(w, real_.receipts) && Alike(w, dry, real_)
    requires Target(g, op).Success? ==> forall e | e in dry.receipts :: e.target != Target(g, op).value
    ensures Alike(w, Then(g, DryRun, dry, index, op), Then(g, Apply, real_, index, op))
  {
    var next := Then(g, DryRun, dry, index, op).receipts;
    assert next != dry.receipts ==> next[..|next| - 1] == dry.receipts;
    if !Clashes(w, dry.receipts) {
      NextAgreesIff(g, w, dry.receipts, index, op);
    }
  }

  lemma LockstepNext(g: Guard, w: World, init: seq<Operation>, op: Operation)
    requires DistinctTargets(g, init + [op])
    requires Alike(w, Execution(g, w, DryRun, init), Execution(g, w, Apply, init))
    ensures Alike(w, Execution(g, w, DryRun, init + [op]), Execution(g, w, Apply, init + [op]))
  {
    var dry, real_ := Execution(g, w, DryRun, init), Execution(g, w, Apply, init);
    DryReceiptsMatch(g, w, init);
    DryRunWritesNothing(g, w, init);
    ApplyIsAccountedFor(g, w, init);
    if Target(g, op).Success? {
      NewTarget(g, init, dry.receipts, op);
    }
    AlikeNext(g, w, dry, real_, |init|, op);
    ExecutionNext(g, w, DryRun, init, op);
    ExecutionNext(g, w, Apply, init, op);
  }

  /**
   For a proposal whose targets are distinct, applying it reports what the dry run
   reported, the same receipts and the same success or failing operation, exactly when the
   dry run's receipts do not clash.
   */
  lemma DryRunForetellsIff(g: Guard, w: World, ops: seq<Operation>)
    requires DistinctTargets(g, ops)
    ensures var dry, real_ := Execution(g, w, DryRun, ops), Execution(g, w, Apply, ops);
      real_.receipts == dry.receipts && (real_.error.Some? <==> dry.error.Some?) <==> !Clashes(w, dry.receipts)
  {
    Lockstep(g, w, ops);
  }

  // ---- Distinct targets alone are not enough -----------------------------------

  const HERE := Guard(["r"], {}, 512_000, {})
  const BARE := World(map[], {["r"]})
  const FILE_A := Operation(WriteFile, "a", "x", "", "", false)
  const FILE_AB := Operation(WriteFile, "a/b", "y", "", "", false)

  lemma TwoTargets()
    ensures Target(HERE, FILE_A) == Success(["r", "a"]) && Target(HERE, FILE_AB) == Success(["r", "a", "b"])
  {
    assert "a/b" == "a" + ['/'] + "b";
    SplitNone("a", '/');
    SplitNone("b", '/');
    SplitHead("a", '/', "b");
    assert Parts("a") == ["a"];
    assert ["a", "b"][1..] == ["b"];
    assert Parts("a/b") == ["a", "b"];
    assert Resolve(["r"], ["a"]) == ["r", "a"];
    assert Resolve(["r"], ["a", "b"]) == Resolve(["r", "a"], ["b"]) == ["r", "a", "b"];
  }

  lemma DryFirst() returns (r: Receipt)
    ensures r.changed && r.target == ["r", "a"]
    ensures Execution(HERE, BARE, DryRun, [FILE_A]) == Outcome(BARE, [r], None)
  {
    TwoTargets();
    ExecutionNext(HERE, BARE, DryRun, [], FILE_A);
    assert [] + [FILE_A] == [FILE_A];
    r := Perform(HERE, BARE, DryRun, 0, FILE_A).value;
    assert [] + [r] == [r];
  }

  lemma DrySecond(first: Receipt) returns (r: Receipt)
    requires Execution(HERE, BARE, DryRun, [FILE_A]) == Outcome(BARE, [first], None)
    ensures r.changed && r.target == ["r", "a", "b"]
    ensures Execution(HERE, BARE, DryRun, [FILE_A, FILE_AB]) == Outcome(BARE, [first, r], None)
  {
    TwoTargets();
    ExecutionNext(HERE, BARE, DryRun, [FILE_A], FILE_AB);
    assert [FILE_A] + [FILE_AB] == [FILE_A, FILE_AB];
    r := Perform(HERE, BARE, DryRun, 1, FILE_AB).value;
    assert [first] + [r] == [first, r];
  }

  /** A file "a" and then a file "a/b": the dry run succeeds and the real one cannot. */
  lemma DryRunMisleads()
    ensures DistinctTargets(HERE, [FILE_A, FILE_AB])
    ensures Execution(HERE, BARE, DryRun, [FILE_A, FILE_AB]).error.None?
    ensures Execution(HERE, BARE, Apply, [FILE_A, FILE_AB]).error.Some?
  {
    TwoTargets();
    var r1 := DryFirst();
    var r2 := DrySecond(r1);
    assert [r1, r2][..1] == [r1];
    assert r1 in [r1] && Above(r1.target, r2.target);
    Lockstep(HERE, BARE, [FILE_A, FILE_AB]);
  }
}
