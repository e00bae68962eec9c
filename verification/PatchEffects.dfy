/** What the guard lets through and what an accepted operation does to its file. */
module PatchEffects {
  import opened Common
  import opened Workspace
  import opened PatchExecution
  import opened PatchPrediction

  // ---- Paths -----------------------------------------------------------------

  /** Splitting a text with one more character in front. */
  function Grow(c: char, sep: char, rest: seq<string>): seq<string>
    requires rest != []
  {
    if c == sep then [""] + rest else [[c] + rest[0]] + rest[1..]
  }

  lemma GrowConcat(c: char, sep: char, rest: seq<string>, more: seq<string>)
    requires rest != []
    ensures Grow(c, sep, rest + more) == Grow(c, sep, rest) + more
  {
    assert (rest + more)[1..] == rest[1..] + more;
  }

  lemma {:induction false} SplitConcat(a: string, sep: char, b: string)
    ensures Split(a + [sep] + b, sep) == Split(a, sep) + Split(b, sep)
  {
    var whole := a + [sep] + b;
    if a == "" {
      assert whole[1..] == b;
    } else {
      assert whole[1..] == a[1..] + [sep] + b && whole[0] == a[0];
      SplitConcat(a[1..], sep, b);
      GrowConcat(a[0], sep, Split(a[1..], sep), Split(b, sep));
      assert Split(whole, sep) == Grow(a[0], sep, Split(whole[1..], sep));
      assert Split(a, sep) == Grow(a[0], sep, Split(a[1..], sep));
    }
  }

  function Kept(part: string): seq<string> {
    if part == "" || part == "." then [] else [part]
  }

  lemma SignificantCons(part: string, rest: seq<string>)
    ensures Significant([part] + rest) == Kept(part) + Significant(rest)
  {
    assert ([part] + rest)[1..] == rest;
  }

  lemma AssocParts(a: seq<string>, b: seq<string>, c: seq<string>)
    ensures a + b + c == a + (b + c)
  {
  }

  lemma {:induction false} SignificantConcat(a: seq<string>, b: seq<string>)
    ensures Significant(a + b) == Significant(a) + Significant(b)
  {
    if a == [] {
      assert a + b == b;
    } else {
      var first, rest := a[0], a[1..];
      SignificantConcat(rest, b);
      SignificantCons(first, rest);
      SignificantCons(first, rest + b);
      AssocParts([first], rest, b);
      AssocParts(Kept(first), Significant(rest), Significant(b));
      assert a == [first] + rest;
    }
  }

  /** The components of a path are those of its two sides of any slash. */
  lemma PartsConcat(a: string, b: string)
    ensures Parts(a + "/" + b) == Parts(a) + Parts(b)
  {
    SplitConcat(a, '/', b);
    assert a + "/" + b == a + ['/'] + b;
    SignificantConcat(Split(a, '/'), Split(b, '/'));
  }

  /** A name is its own component, but for the empty one and ".". */
  lemma PartsOfName(name: string)
    requires '/' !in name
    ensures Parts(name) == if name == "" || name == "." then [] else [name]
  {
    SplitNone(name, '/');
    assert [name][1..] == [] && Significant([]) == [];
    assert [name] + [] == [name];
  }

  /** A location under the root is shown by its names with slashes between them. */
  lemma {:induction false} JoinShows(parts: seq<string>)
    requires forall i | 0 <= i < |parts| :: '/' !in parts[i] && parts[i] != "" && parts[i] != "."
    ensures Parts(Join(parts)) == parts
  {
    if parts == [] {
      PartsOfName(".");
    } else if |parts| == 1 {
      PartsOfName(parts[0]);
    } else {
      PartsConcat(parts[0], Join(parts[1..]));
      PartsOfName(parts[0]);
      JoinShows(parts[1..]);
      assert parts == [parts[0]] + parts[1..];
    }
  }

  /** Components are walked one after the other. */
  lemma {:induction false} ResolveConcat(base: Location, a: seq<string>, b: seq<string>)
    ensures Resolve(base, a + b) == Resolve(Resolve(base, a), b)
    decreases |a|
  {
    if a == [] {
      assert a + b == b;
    } else {
      assert (a + b)[1..] == a[1..] + b && (a + b)[0] == a[0];
      ResolveConcat(if a[0] != ".." then base + [a[0]] else if base == [] then [] else base[..|base| - 1], a[1..], b);
    }
  }

  /** Names go down. */
  lemma {:induction false} ResolveNames(base: Location, names: seq<string>)
    requires ".." !in names
    ensures Resolve(base, names) == base + names
    decreases |names|
  {
    if names == [] {
      assert base + names == base;
    } else {
      ResolveNames(base + [names[0]], names[1..]);
      assert base + [names[0]] + names[1..] == base + names;
    }
  }

  /** ".." takes back one name, and stays at the top. */
  lemma ResolveUp(base: Location, name: string)
    ensures Resolve(base + [name], [".."]) == base
    ensures Resolve([], [".."]) == []
  {
    assert [".."][1..] == [];
    assert (base + [name])[..|base|] == base;
  }

  /** What the guard answers to a path, first failing check first. */
  lemma ResolvePathIs(root: Location, blocked: set<string>, path: string)
    ensures var r, p := ResolvePath(root, blocked, path), Resolve(root, Parts(path));
      && (r == Failure(Absolute) <==> "/" <= path)
      && (r == Failure(Escapes) <==> !("/" <= path) && !(root <= p))
      && (r == Failure(BlockedDirectory) <==> !("/" <= path) && root <= p && exists c :: c in Parts(path) && c in blocked)
      && (r == Success(p) <==> !("/" <= path) && root <= p && forall c | c in Parts(path) :: c !in blocked)
  {
  }

  /** A relative path without ".." and blocked names is accepted, and lies where it says. */
  lemma PlainPathIsAccepted(root: Location, blocked: set<string>, path: string)
    requires !("/" <= path) && forall c | c in Parts(path) :: c != ".." && c !in blocked
    ensures ResolvePath(root, blocked, path) == Success(root + Parts(path))
  {
    ResolveNames(root, Parts(path));
  }

  // ---- Text ------------------------------------------------------------------

  lemma {:induction false} NewlinesConcat(a: string, b: string)
    requires a != "" && a[|a| - 1] == '\r' ==> !("\n" <= b)
    ensures Newlines(a + b) == Newlines(a) + Newlines(b)
  {
    if a == "" {
      assert a + b == b;
    } else if a[0] == '\r' && |a| > 1 && a[1] == '\n' {
      assert (a + b)[2..] == a[2..] + b && (a + b)[0] == '\r' && (a + b)[1] == '\n';
      NewlinesConcat(a[2..], b);
      Assoc("\n", Newlines(a[2..]), Newlines(b));
    } else {
      assert (a + b)[1..] == a[1..] + b && (a + b)[0] == a[0];
      assert a[0] == '\r' && |a + b| > 1 ==> (a + b)[1] != '\n';
      NewlinesConcat(a[1..], b);
      Assoc(if a[0] == '\r' then "\n" else [a[0]], Newlines(a[1..]), Newlines(b));
    }
  }

  lemma Assoc(a: string, b: string, c: string)
    ensures a + b + c == a + (b + c)
  {
  }

  /** Each of the three line endings is read as one "\n". */
  lemma LineEndings(a: string, b: string)
    requires '\r' !in a
    ensures Newlines(a) == a
    ensures Newlines(a + "\n" + b) == a + "\n" + Newlines(b)
    ensures Newlines(a + "\r\n" + b) == a + "\n" + Newlines(b)
    ensures !("\n" <= b) ==> Newlines(a + "\r" + b) == a + "\n" + Newlines(b)
  {
    NoReturns(a);
    LineEnds(a, "\n", b);
    LineEnds(a, "\r\n", b);
    if !("\n" <= b) {
      LineEnds(a, "\r", b);
    }
  }

  lemma LineEnds(a: string, ending: string, b: string)
    requires '\r' !in a && ending in {"\n", "\r\n", "\r"} && (ending == "\r" ==> !("\n" <= b))
    ensures Newlines(a + ending + b) == a + "\n" + Newlines(b)
  {
    NoReturns(a);
    NewlinesConcat(a, ending + b);
    OneEnding(ending, b);
    Assoc(a, ending, b);
    Assoc(a, "\n", Newlines(b));
  }

  lemma OneEnding(ending: string, b: string)
    requires ending in {"\n", "\r\n", "\r"} && (ending == "\r" ==> !("\n" <= b))
    ensures Newlines(ending + b) == "\n" + Newlines(b)
  {
    var s := ending + b;
    assert if ending == "\r\n" then s[2..] == b else s[1..] == b;
  }

  lemma {:induction false} NoReturns(a: string)
    requires '\r' !in a
    ensures Newlines(a) == a
  {
    if a != "" {
      NoReturns(a[1..]);
    }
  }

  /** The size in UTF-8 adds up, one to four bytes a character by the ranges of the encoding. */
  lemma {:induction false} SizeConcat(a: string, b: string)
    ensures Utf8Size(a + b) == Utf8Size(a) + Utf8Size(b)
  {
    if a == "" {
      assert a + b == b;
    } else {
      SizeConcat(a[1..], b);
      assert (a + b)[1..] == a[1..] + b;
    }
  }

  lemma SizeOfOne(c: char)
    ensures Utf8Size([c]) == 1 <==> c <= '\U{007F}'
    ensures Utf8Size([c]) == 2 <==> '\U{007F}' < c <= '\U{07FF}'
    ensures Utf8Size([c]) == 3 <==> '\U{07FF}' < c <= '\U{FFFF}'
    ensures Utf8Size([c]) == 4 <==> '\U{FFFF}' < c
  {
    assert [c][1..] == "";
  }

  // ---- The guard ---------------------------------------------------------------

  /** A place where a linked run may add a file: right under "tests", or in the directory of one of its files. */
  ghost predicate MayAdd(g: Guard, p: Location)
    requires g.root <= p
  {
    && (forall path | path in g.allowed :: g.root <= Resolve(if "/" <= path then [] else g.root, Parts(path)))
    && |p| > |g.root|
    && (p[..|p| - 1] == g.root + ["tests"]
        || (|p| > |g.root| + 1
            && exists path :: path in g.allowed && IsBeside(Resolve(if "/" <= path then [] else g.root, Parts(path)), p)))
  }

  predicate IsBeside(q: Location, p: Location) {
    q != [] && p != [] && q[..|q| - 1] == p[..|p| - 1]
  }

  lemma ParentIs(root: Location, p: Location)
    requires root <= p
    ensures if |p| > |root| then root + Parent(p[|root|..]) == p[..|p| - 1] else Parent(p[|root|..]) == []
  {
    if |p| > |root| {
      assert p[|root|..][..|p| - |root| - 1] == p[|root|..|p| - 1];
      assert root + p[|root|..|p| - 1] == p[..|p| - 1];
    }
  }

  lemma SameParent(root: Location, q: Location, p: Location)
    requires root <= q && root <= p && |p| > |root| + 1
    ensures Parent(q[|root|..]) == Parent(p[|root|..]) <==> IsBeside(q, p)
  {
    ParentIs(root, p);
    ParentIs(root, q);
    if |q| > |root| {
      var a, b := Parent(q[|root|..]), Parent(p[|root|..]);
      assert root + a == root + b <==> a == b by {
        assert (root + a)[|root|..] == a && (root + b)[|root|..] == b;
      }
    } else {
      assert |p[..|p| - 1]| > |root| && q == root;
    }
  }

  lemma MayAddIff(g: Guard, p: Location)
    requires g.root <= p
    ensures NewFileAllowed(g, p) <==> MayAdd(g, p)
  {
    ParentIs(g.root, p);
    var parent := Parent(p[|g.root|..]);
    if |p| > |g.root| {
      assert parent == ["tests"] <==> p[..|p| - 1] == g.root + ["tests"] by {
        assert (g.root + parent)[|g.root|..] == parent && (g.root + ["tests"])[|g.root|..] == ["tests"];
      }
    }
    if |p| > |g.root| + 1 {
      assert parent != [];
      forall path | path in g.allowed && g.root <= AllowedLocation(g, path)
        ensures Parent(AllowedLocation(g, path)[|g.root|..]) == parent <==> IsBeside(AllowedLocation(g, path), p)
      {
        SameParent(g.root, AllowedLocation(g, path), p);
      }
    }
  }

  /** What each kind of operation needs of its target; None of the checks before matters for the next. */
  lemma ValidateIs(g: Guard, op: Operation, p: Location, view: View)
    requires g.root <= p
    ensures var check := Validate(g, op, p, view);
      var inside := g.allowed == {} || view.Missing? || Join(p[|g.root|..]) in g.allowed;
      var tooLarge := view.File? && Size(view.content) > g.maxBytes;
      var fits := inside && match op.kind
                            case WriteFile => view.Missing? || op.allowOverwrite
                            case AppendText => !view.Missing? && op.content != ""
                            case ReplaceText => !view.Missing? && op.find != "";
      && (check == Some(OutsideAllowed) <==> !inside)
      && (check == Some(TargetMissing) <==> inside && !op.kind.WriteFile? && view.Missing?)
      && (check == Some(NoFindText) <==> inside && op.kind.ReplaceText? && !view.Missing? && op.find == "")
      && (check == Some(NoContent) <==> inside && op.kind.AppendText? && !view.Missing? && op.content == "")
      && (check == Some(WouldOverwrite) <==> inside && op.kind.WriteFile? && !view.Missing? && !op.allowOverwrite)
      && (check == Some(TooLarge) <==> fits && tooLarge)
      && (check == Some(NewFileOutside) <==> fits && g.allowed != {} && view.Missing? && !MayAdd(g, p))
      && (check == None <==> fits && !tooLarge && (g.allowed == {} || !view.Missing? || MayAdd(g, p)))
  {
    MayAddIff(g, p);
  }

  lemma TargetIs(g: Guard, op: Operation)
    ensures Target(g, op) == Failure(NoPath) <==> op.path == ""
    ensures forall why :: Target(g, op) == Failure(BadPath(why))
                          <==> op.path != "" && ResolvePath(g.root, g.blocked, op.path) == Failure(why)
    ensures forall p :: Target(g, op) == Success(p) <==> op.path != "" && ResolvePath(g.root, g.blocked, op.path) == Success(p)
  {
  }

  // ---- Operations ----------------------------------------------------------------

  /** The text an operation finds: nothing where there is no file. */
  predicate Finds(view: View, before: string) {
    (view.Missing? && before == "") || (view.File? && view.content.Text? && before == Newlines(view.content.text))
  }

  /** What an accepted operation makes of the text it finds. */
  lemma OperationIs(g: Guard, index: nat, op: Operation, p: Location, view: View, before: string)
    requires g.root <= p && Judge(g, index, op, p, view).Success? && Finds(view, before)
    ensures var r := Judge(g, index, op, p, view).value;
      && r.index == index && r.kind == op.kind && r.target == p
      && (r.before == if view.Missing? then None else Some(before))
      && (r.changed <==> r.after != before)
      && (op.kind.WriteFile? ==> r.after == op.content)
      && (op.kind.AppendText? ==> r.after == before + op.content && r.changed)
      && (op.kind.ReplaceText? ==> op.find != "" && Replaces(before, op.find, op.replacement, r.after))
      && (r.detail == match op.kind
                      case WriteFile => (if view.Missing? then "create file" else "overwrite file")
                      case AppendText => "append text"
                      case ReplaceText => "replace text")
  {
    if op.kind.ReplaceText? {
      ReplacedIs(op, before);
    }
  }

  /** `after` is `before` with its only match of `find` replaced, and everything around it kept. */
  ghost predicate Replaces(before: string, find: string, replacement: string, after: string) {
    exists i: nat :: OnlyMatch(before, find, i) && after == before[..i] + replacement + before[i + |find|..]
  }

  lemma ReplacedIs(op: Operation, before: string)
    requires op.kind.ReplaceText? && op.find != ""
    ensures AfterText(op, before).Success? ==> Replaces(before, op.find, op.replacement, AfterText(op, before).value)
  {
    CountOneIff(before, op.find, op.replacement);
  }

  /** Why an operation that the guard lets through still fails. */
  lemma OperationFails(g: Guard, index: nat, op: Operation, p: Location, view: View)
    requires g.root <= p && Validate(g, op, p, view).None?
    ensures Judge(g, index, op, p, view) == Failure(Unreadable) <==> view.Directory? || (view.File? && view.content.Binary?)
    ensures !op.kind.ReplaceText? && (view.Missing? || (view.File? && view.content.Text?)) ==> Judge(g, index, op, p, view).Success?
  {
  }

  ghost predicate Occurs(text: string, find: string) {
    exists i :: OccursAt(text, find, i)
  }

  ghost predicate OccursOnce(text: string, find: string) {
    exists i: nat :: OnlyMatch(text, find, i)
  }

  /** A replacement fails when its text is not there, or is there more than once without overlap. */
  lemma ReplacementFails(g: Guard, index: nat, op: Operation, p: Location, text: string)
    requires g.root <= p && Validate(g, op, p, File(Text(text))).None? && op.kind.ReplaceText?
    ensures var before, j := Newlines(text), Judge(g, index, op, p, File(Text(text)));
      && (j == Failure(TextNotFound) <==> !Occurs(before, op.find))
      && (j == Failure(Ambiguous) <==> Occurs(before, op.find) && !OccursOnce(before, op.find))
      && (j.Success? <==> OccursOnce(before, op.find))
  {
    ReplacementMade(op, Newlines(text));
  }

  lemma ReplacementMade(op: Operation, before: string)
    requires op.kind.ReplaceText? && op.find != ""
    ensures AfterText(op, before) == Failure(TextNotFound) <==> !Occurs(before, op.find)
    ensures AfterText(op, before).Success? <==> OccursOnce(before, op.find)
    ensures AfterText(op, before) == Failure(Ambiguous) <==> Occurs(before, op.find) && !OccursOnce(before, op.find)
  {
    CountZero(before, op.find);
    CountOneIff(before, op.find, op.replacement);
  }

  // ---- The workspace after APPLY -------------------------------------------------

  /** Each receipt of an applied run is the judgement of its operation on what the ones before it left. */
  lemma {:induction false} ReceiptIsJudgement(g: Guard, w: World, ops: seq<Operation>, i: nat)
    requires i < |Execution(g, w, Apply, ops).receipts|
    ensures i < |ops| && Target(g, ops[i]).Success? && g.root <= Target(g, ops[i]).value
    ensures var p := Target(g, ops[i]).value;
      Judge(g, i, ops[i], p, Look(Execution(g, w, Apply, ops[..i]).world, p))
      == Success(Execution(g, w, Apply, ops).receipts[i])
  {
    var init := ops[..|ops| - 1];
    var before := Execution(g, w, Apply, init);
    LengthsMatch(g, w, ops);
    if i < |before.receipts| {
      ReceiptIsJudgement(g, w, init, i);
      assert init[..i] == ops[..i] && init[i] == ops[i];
      ApplyNext(g, w, ops);
    } else {
      assert ops[..i] == init && ops == init + [ops[i]];
      ExecutionNext(g, w, Apply, init, ops[i]);
      ThenIsJudgement(g, before, i, ops[i]);
    }
  }

  lemma LengthsMatch(g: Guard, w: World, ops: seq<Operation>)
    requires Execution(g, w, Apply, ops).receipts != []
    ensures ops != []
    ensures var o, before := Execution(g, w, Apply, ops), Execution(g, w, Apply, ops[..|ops| - 1]);
      && |o.receipts| <= |ops| && |before.receipts| <= |o.receipts|
      && (|o.receipts| > |before.receipts| ==> |o.receipts| == |ops|)
  {
    ApplyNext(g, w, ops);
    ReceiptsCount(g, w, ops);
  }

  lemma ThenIsJudgement(g: Guard, o: Outcome, index: nat, op: Operation)
    requires |Then(g, Apply, o, index, op).receipts| > |o.receipts|
    ensures Target(g, op).Success? && g.root <= Target(g, op).value
    ensures var p := Target(g, op).value;
      var j := Judge(g, index, op, p, Look(o.world, p));
      j.Success? && Then(g, Apply, o, index, op).receipts == o.receipts + [j.value]
  {
  }

  lemma {:induction false} LastChangeIs(rs: seq<Receipt>, i: nat)
    requires i < |rs| && rs[i].changed
    requires forall j | i < j < |rs| :: rs[j].changed ==> rs[j].target != rs[i].target
    ensures LastChange(rs, rs[i].target) == Some(rs[i])
  {
    if i < |rs| - 1 {
      LastChangeIs(rs[..|rs| - 1], i);
    }
  }

  /**
   After APPLY the file of an append that nothing later in the proposal changes holds the text
   found there, its line endings read as "\n", followed by the appended text.
   */
  lemma AppendIsApplied(g: Guard, w: World, ops: seq<Operation>, i: nat)
    requires var rs := Execution(g, w, Apply, ops).receipts;
      i < |rs| && i < |ops| && ops[i].kind.AppendText?
      && forall j | i < j < |rs| :: rs[j].changed ==> rs[j].target != rs[i].target
    ensures var o, before := Execution(g, w, Apply, ops), Execution(g, w, Apply, ops[..i]).world;
      var p := o.receipts[i].target;
      && p in before.files && before.files[p].Text?
      && p in o.world.files && o.world.files[p] == Text(Newlines(before.files[p].text) + ops[i].content)
  {
    var o, before := Execution(g, w, Apply, ops), Execution(g, w, Apply, ops[..i]).world;
    ReceiptIsJudgement(g, w, ops, i);
    var p := o.receipts[i].target;
    ValidateIs(g, ops[i], p, Look(before, p));
    OperationIs(g, i, ops[i], p, Look(before, p), Newlines(before.files[p].text));
    ApplyIsAccountedFor(g, w, ops);
    LastChangeIs(o.receipts, i);
    EachFileAfterwards(w, o.receipts, p);
  }

  /** After APPLY the file of a write that nothing later changes holds the written text, or what already read as that text. */
  lemma WriteIsApplied(g: Guard, w: World, ops: seq<Operation>, i: nat)
    requires var rs := Execution(g, w, Apply, ops).receipts;
      i < |rs| && i < |ops| && ops[i].kind.WriteFile?
      && forall j | i < j < |rs| :: rs[j].changed ==> rs[j].target != rs[i].target
    ensures var o, before := Execution(g, w, Apply, ops), Execution(g, w, Apply, ops[..i]).world;
      var p := o.receipts[i].target;
      if o.receipts[i].changed then p in o.world.files && o.world.files[p] == Text(ops[i].content)
      else if p in before.files then before.files[p].Text? && Newlines(before.files[p].text) == ops[i].content
      else ops[i].content == ""
  {
    var o, before := Execution(g, w, Apply, ops), Execution(g, w, Apply, ops[..i]).world;
    ReceiptIsJudgement(g, w, ops, i);
    var p := o.receipts[i].target;
    OperationIs(g, i, ops[i], p, Look(before, p), if p in before.files then Newlines(before.files[p].text) else "");
    if o.receipts[i].changed {
      ApplyIsAccountedFor(g, w, ops);
      LastChangeIs(o.receipts, i);
      EachFileAfterwards(w, o.receipts, p);
    }
  }

  /** The directories after APPLY: those before, and every one above a changed file. */
  lemma DirectoriesAfterwards(g: Guard, w: World, ops: seq<Operation>, q: Location)
    ensures var o := Execution(g, w, Apply, ops);
      q in o.world.dirs
      <==> q in w.dirs || exists i :: 0 <= i < |o.receipts| && o.receipts[i].changed && q < o.receipts[i].target
  {
    var rs := Execution(g, w, Apply, ops).receipts;
    ApplyIsAccountedFor(g, w, ops);
    AccountedKeys(w, rs, q);
    if e :| e in rs && e.changed && Above(q, e.target) {
      var i :| 0 <= i < |rs| && rs[i] == e;
    }
  }

  /** When a change that was judged fine cannot be written: a file lies where a parent directory should. */
  lemma ParentBlocks(g: Guard, w: World, index: nat, op: Operation, p: Location)
    requires Target(g, op) == Success(p) && g.root <= p
    ensures Perform(g, w, Apply, index, op) == Failure(ParentIsFile)
      <==> && Judge(g, index, op, p, Look(w, p)).Success? && Judge(g, index, op, p, Look(w, p)).value.changed
           && exists q :: q in w.files && q < p
  {
    if Judge(g, index, op, p, Look(w, p)).Failure? {
      JudgeErrors(g, index, op, p, Look(w, p));
    }
  }

  lemma JudgeErrors(g: Guard, index: nat, op: Operation, p: Location, view: View)
    requires g.root <= p
    ensures Judge(g, index, op, p, view) != Failure(ParentIsFile)
  {
  }
}
