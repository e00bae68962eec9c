/** Patch proposals: a fold of text operations over a workspace, and what a dry run says about it. */
module PatchExecution {
  import opened Common
  import opened Workspace

  datatype Content = Text(text: string) | Binary(bytes: nat)

  /** The files and the directories of the workspace, by location. */
  datatype World = World(files: map<Location, Content>, dirs: set<Location>)

  datatype View = Missing | Directory | File(content: Content)

  function Look(w: World, p: Location): View {
    if p in w.files then File(w.files[p]) else if p in w.dirs then Directory else Missing
  }

  datatype Kind = WriteFile | AppendText | ReplaceText
  datatype Operation = Operation(kind: Kind, path: string, content: string, find: string, replacement: string,
                                 allowOverwrite: bool)

  datatype Mode = DryRun | Apply

  /** `allowed` holds the paths of the linked run; an empty set allows everything. */
  datatype Guard = Guard(root: Location, blocked: set<string>, maxBytes: nat, allowed: set<string>)

  datatype Error =
    | NoPath | BadPath(why: GuardError) | OutsideAllowed | TargetMissing | NoFindText | NoContent | WouldOverwrite
    | TooLarge | NewFileOutside | Unreadable | TextNotFound | Ambiguous | ParentIsFile

  /** Texts stand for their digests and sizes; `before` is None for a file that was not there. */
  datatype Receipt = Receipt(index: nat, kind: Kind, target: Location, changed: bool, before: Option<string>,
                             after: string, detail: string)

  function Join(parts: seq<string>): string {
    if parts == [] then "." else if |parts| == 1 then parts[0] else parts[0] + "/" + Join(parts[1..])
  }

  function Parent(relative: Location): Location {
    if relative == [] then [] else relative[..|relative| - 1]
  }

  /** Where an allowed path lies; an absolute one replaces the root. */
  function AllowedLocation(g: Guard, path: string): Location {
    Resolve(if IsAbsolute(path) then [] else g.root, Parts(path))
  }

  /** New files may go beside an allowed file, not at the top, or into "tests". */
  predicate NewFileAllowed(g: Guard, target: Location)
    requires g.root <= target
  {
    var parent := Parent(target[|g.root|..]);
    && (forall path | path in g.allowed :: g.root <= AllowedLocation(g, path))
    && (parent == ["tests"]
        || (parent != [] && exists path | path in g.allowed :: Parent(AllowedLocation(g, path)[|g.root|..]) == parent))
  }

  function Target(g: Guard, op: Operation): Result<Location, Error> {
    if op.path == "" then Failure(NoPath)
    else
      match ResolvePath(g.root, g.blocked, op.path)
      case Failure(why) => Failure(BadPath(why))
      case Success(p) => Success(p)
  }

  function Size(content: Content): nat {
    if content.Text? then Utf8Size(content.text) else content.bytes
  }

  /** The guard's checks on an operation whose target looks like `view`. */
  function Validate(g: Guard, op: Operation, p: Location, view: View): Option<Error>
    requires g.root <= p
  {
    if g.allowed != {} && !view.Missing? && Join(p[|g.root|..]) !in g.allowed then Some(OutsideAllowed)
    else if op.kind.ReplaceText? && view.Missing? then Some(TargetMissing)
    else if op.kind.ReplaceText? && op.find == "" then Some(NoFindText)
    else if op.kind.AppendText? && view.Missing? then Some(TargetMissing)
    else if op.kind.AppendText? && op.content == "" then Some(NoContent)
    else if op.kind.WriteFile? && !view.Missing? && !op.allowOverwrite then Some(WouldOverwrite)
    else if view.File? && Size(view.content) > g.maxBytes then Some(TooLarge)
    else if g.allowed != {} && view.Missing? && !NewFileAllowed(g, p) then Some(NewFileOutside)
    else None
  }

  function AfterText(op: Operation, before: string): Result<string, Error>
    requires op.kind.ReplaceText? ==> op.find != ""
  {
    match op.kind
    case WriteFile => Success(op.content)
    case AppendText => Success(before + op.content)
    case ReplaceText =>
      if Count(before, op.find) == 0 then Failure(TextNotFound)
      else if Count(before, op.find) > 1 then Failure(Ambiguous)
      else Success(ReplaceFirst(before, op.find, op.replacement))
  }

  function Detail(op: Operation, existed: bool): string {
    match op.kind
    case WriteFile => if existed then "overwrite file" else "create file"
    case AppendText => "append text"
    case ReplaceText => "replace text"
  }

  /** Everything an operation decides before it writes: it depends on its own target only. */
  function Judge(g: Guard, index: nat, op: Operation, p: Location, view: View): Result<Receipt, Error>
    requires g.root <= p
  {
    var refusal := Validate(g, op, p, view);
    if refusal.Some? then Failure(refusal.value)
    else if view.Directory? || (view.File? && view.content.Binary?) then Failure(Unreadable)
    else
      var before := if view.File? then Newlines(view.content.text) else "";
      match AfterText(op, before)
      case Failure(error) => Failure(error)
      case Success(after) =>
        Success(Receipt(index, op.kind, p, before != after, if view.File? then Some(before) else None, after,
                        Detail(op, view.File?)))
  }

  function Ancestors(p: Location): set<Location> {
    set n | 0 <= n < |p| :: p[..n]
  }

  predicate Above(q: Location, p: Location) {
    q < p
  }

  /** Writing creates the missing parents, unless one of them is a file. */
  predicate Writable(w: World, p: Location) {
    forall q | q in w.files :: !Above(q, p)
  }

  function Write(w: World, p: Location, text: string): World {
    World(w.files[p := Text(text)], w.dirs + Ancestors(p))
  }

  /** The world a receipt accounts for. */
  function Account(w: World, r: Receipt): World {
    if r.changed then Write(w, r.target, r.after) else w
  }

  function AccountAll(w: World, rs: seq<Receipt>): World {
    if rs == [] then w else Account(AccountAll(w, rs[..|rs| - 1]), rs[|rs| - 1])
  }

  function Perform(g: Guard, w: World, mode: Mode, index: nat, op: Operation): Result<Receipt, Error> {
    match Target(g, op)
    case Failure(error) => Failure(error)
    case Success(p) =>
      match Judge(g, index, op, p, Look(w, p))
      case Failure(error) => Failure(error)
      case Success(r) => if mode.Apply? && r.changed && !Writable(w, p) then Failure(ParentIsFile) else Success(r)
  }

  /** The receipts so far, the workspace they left, and the error that stopped the run, if any. */
  datatype Outcome = Outcome(world: World, receipts: seq<Receipt>, error: Option<Error>)

  function Execution(g: Guard, w: World, mode: Mode, ops: seq<Operation>): Outcome {
    if ops == [] then Outcome(w, [], None)
    else
      var o := Execution(g, w, mode, ops[..|ops| - 1]);
      if o.error.Some? then o
      else
        match Perform(g, o.world, mode, |ops| - 1, ops[|ops| - 1])
        case Failure(error) => o.(error := Some(error))
        case Success(r) => Outcome(if mode.Apply? then Account(o.world, r) else o.world, o.receipts + [r], None)
  }

  class LocalWorkspace {
    var files: map<Location, Content>
    var dirs: set<Location>

    function State(): World
      reads this
    {
      World(files, dirs)
    }

    constructor (w: World)
      ensures State() == w
    {
      files, dirs := w.files, w.dirs;
    }

    /** Reads, computes and, in APPLY mode, writes one target the guard has validated. */
    method ApplyOperation(g: Guard, mode: Mode, index: nat, op: Operation, p: Location) returns (r: Result<Receipt, Error>)
      requires g.root <= p && Target(g, op) == Success(p) && Validate(g, op, p, Look(State(), p)).None?
      modifies this
      ensures r == Perform(g, old(State()), mode, index, op)
      ensures State() == if r.Success? && mode.Apply? then Account(old(State()), r.value) else old(State())
    {
      var view := Look(State(), p);
      if view.Directory? || (view.File? && view.content.Binary?) {
        return Failure(Unreadable);
      }
      var before := if view.File? then Newlines(view.content.text) else "";
      var after := AfterText(op, before);
      if after.Failure? {
        return Failure(after.error);
      }
      var changed := before != after.value;
      if mode.Apply? && changed {
        if !Writable(State(), p) {
          return Failure(ParentIsFile);
        }
        dirs := dirs + Ancestors(p);
        files := files[p := Text(after.value)];
      }
      return Success(Receipt(index, op.kind, p, changed, if view.File? then Some(before) else None, after.value,
                             Detail(op, view.File?)));
    }

    /** The operation loop; the source refuses an empty proposal before it. */
    method Execute(g: Guard, mode: Mode, ops: seq<Operation>) returns (receipts: seq<Receipt>, error: Option<Error>)
      requires ops != []
      modifies this
      ensures Outcome(State(), receipts, error) == Execution(g, old(State()), mode, ops)
    {
      receipts, error := [], None;
      for index := 0 to |ops|
        invariant Outcome(State(), receipts, error) == Execution(g, old(State()), mode, ops[..index])
        invariant error.None?
      {
        ghost var upTo := ops[..index + 1];
        assert upTo[..index] == ops[..index] && ops[..|ops|] == ops;
        var target := Target(g, ops[index]);
        var refusal := if target.Failure? then Some(target.error)
                       else Validate(g, ops[index], target.value, Look(State(), target.value));
        if refusal.Some? {
          error := refusal;
          StopsAt(g, old(State()), mode, ops, index);
          return;
        }
        var r := ApplyOperation(g, mode, index, ops[index], target.value);
        if r.Failure? {
          error := Some(r.error);
          StopsAt(g, old(State()), mode, ops, index);
          return;
        }
        receipts := receipts + [r.value];
      }
      assert ops[..|ops|] == ops;
    }
  }

  /** A failing operation ends the run. */
  lemma {:induction false} StopsAt(g: Guard, w: World, mode: Mode, ops: seq<Operation>, n: nat)
    requires n < |ops| && Execution(g, w, mode, ops[..n + 1]).error.Some?
    ensures Execution(g, w, mode, ops) == Execution(g, w, mode, ops[..n + 1])
    decreases |ops|
  {
    if n + 1 == |ops| {
      assert ops[..n + 1] == ops;
    } else {
      var init := ops[..|ops| - 1];
      assert init[..n + 1] == ops[..n + 1];
      StopsAt(g, w, mode, init, n);
    }
  }
}
