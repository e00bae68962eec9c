/** The path guard and the text functions of patch execution. */
module Workspace {
  import opened Common

  /** An absolute location, by its components. */
  type Location = seq<string>

  /** `Path(text).parts` of a relative path: no empty and no "." components. */
  function Parts(path: string): seq<string> {
    Significant(Split(path, '/'))
  }

  function Significant(parts: seq<string>): seq<string> {
    if parts == [] then []
    else (if parts[0] == "" || parts[0] == "." then [] else [parts[0]]) + Significant(parts[1..])
  }

  /** Lexical resolution: ".." removes the last component, and stays at the top. */
  function Resolve(base: Location, parts: seq<string>): Location
    decreases |parts|
  {
    if parts == [] then base
    else if parts[0] == ".." then Resolve(if base == [] then [] else base[..|base| - 1], parts[1..])
    else Resolve(base + [parts[0]], parts[1..])
  }

  datatype GuardError = Absolute | Escapes | BlockedDirectory

  predicate IsAbsolute(path: string) {
    path != "" && path[0] == '/'
  }

  function ResolvePath(root: Location, blocked: set<string>, path: string): Result<Location, GuardError> {
    if IsAbsolute(path) then Failure(Absolute)
    else
      var resolved := Resolve(root, Parts(path));
      if !(root <= resolved) then Failure(Escapes)
      else if exists part | part in Parts(path) :: part in blocked then Failure(BlockedDirectory)
      else Success(resolved)
  }

  /** `c` is a name among `parts` or lies in `base` at depth `n` or deeper. */
  predicate From(c: string, base: Location, parts: seq<string>, n: nat) {
    (c in parts && c != "..") || exists k | n <= k < |base| :: base[k] == c
  }

  /** What lies beyond depth `n` of a resolved path came from the path, unless it already lay there. */
  lemma {:induction false} BeyondIsFromParts(base: Location, parts: seq<string>, n: nat)
    ensures forall i | n <= i < |Resolve(base, parts)| :: From(Resolve(base, parts)[i], base, parts, n)
    decreases |parts|
  {
    if parts != [] {
      var next := if parts[0] != ".." then base + [parts[0]] else if base == [] then [] else base[..|base| - 1];
      BeyondIsFromParts(next, parts[1..], n);
      var r := Resolve(base, parts);
      forall i | n <= i < |r| ensures From(r[i], base, parts, n) {
        assert From(r[i], next, parts[1..], n);
        if k :| n <= k < |next| && next[k] == r[i] {
          assert k < |base| ==> base[k] == next[k];
        }
      }
    }
  }

  /**
   An accepted path, however it mixes names and "..", resolves to a location under the root
   with no blocked name below the root, although only the unresolved components are checked.
   */
  lemma AcceptedIsUnderRootUnblocked(root: Location, blocked: set<string>, path: string)
    requires ResolvePath(root, blocked, path).Success?
    ensures var r := ResolvePath(root, blocked, path).value;
      && root <= r
      && forall i | |root| <= i < |r| :: r[i] !in blocked && r[i] != ".." && r[i] in Parts(path)
  {
    var r := Resolve(root, Parts(path));
    BeyondIsFromParts(root, Parts(path), |root|);
    forall i | |root| <= i < |r| ensures r[i] !in blocked && r[i] != ".." && r[i] in Parts(path) {
      assert From(r[i], root, Parts(path), |root|);
    }
  }

  // ---- Text ------------------------------------------------------------------

  /** Text mode reads every line ending as "\n". */
  function Newlines(s: string): string {
    if s == "" then ""
    else if s[0] == '\r' then "\n" + Newlines(if |s| > 1 && s[1] == '\n' then s[2..] else s[1..])
    else [s[0]] + Newlines(s[1..])
  }

  function Utf8Size(s: string): nat {
    if s == "" then 0
    else
      var c := s[0] as int;
      (if c < 0x80 then 1 else if c < 0x800 then 2 else if c < 0x1_0000 then 3 else 4) + Utf8Size(s[1..])
  }

  predicate OccursAt(text: string, find: string, i: int) {
    0 <= i <= |text| - |find| && text[i..i + |find|] == find
  }

  /** `str.count`: occurrences from the left that do not overlap. */
  function Count(text: string, find: string): nat
    requires find != ""
  {
    if text == "" then 0
    else if find <= text then 1 + Count(text[|find|..], find)
    else Count(text[1..], find)
  }

  /** `str.replace(find, replacement, 1)`. */
  function ReplaceFirst(text: string, find: string, replacement: string): string
    requires find != ""
  {
    if text == "" then ""
    else if find <= text then replacement + text[|find|..]
    else [text[0]] + ReplaceFirst(text[1..], find, replacement)
  }

  lemma Shift(text: string, find: string, n: nat, j: int)
    requires n <= |text|
    ensures OccursAt(text[n..], find, j) <==> j >= 0 && OccursAt(text, find, n + j)
  {
    if 0 <= j <= |text| - n - |find| {
      assert text[n..][j..j + |find|] == text[n + j..n + j + |find|];
    }
  }

  lemma TailOccurrences(text: string, find: string, n: nat)
    requires n <= |text|
    ensures (forall j :: !OccursAt(text[n..], find, j)) <==> (forall j | n <= j :: !OccursAt(text, find, j))
  {
    forall j ensures OccursAt(text[n..], find, j) <==> j >= 0 && OccursAt(text, find, n + j) {
      Shift(text, find, n, j);
    }
    forall j | n <= j ensures OccursAt(text, find, j) <==> OccursAt(text[n..], find, j - n) {
      Shift(text, find, n, j - n);
    }
  }

  lemma {:induction false} CountZero(text: string, find: string)
    requires find != ""
    ensures Count(text, find) == 0 <==> forall i :: !OccursAt(text, find, i)
  {
    if text != "" {
      if find <= text {
        assert OccursAt(text, find, 0);
      } else {
        CountZero(text[1..], find);
        TailOccurrences(text, find, 1);
        assert !OccursAt(text, find, 0);
      }
    }
  }

  predicate LeftmostAt(text: string, find: string, i: nat) {
    OccursAt(text, find, i) && forall j | 0 <= j < i :: !OccursAt(text, find, j)
  }

  lemma LeftmostShifts(text: string, find: string, k: nat)
    requires text != "" && find != "" && !(find <= text) && LeftmostAt(text[1..], find, k)
    ensures LeftmostAt(text, find, k + 1)
  {
    Shift(text, find, 1, k);
    forall j | 0 <= j < k + 1 ensures !OccursAt(text, find, j) {
      if j > 0 {
        Shift(text, find, 1, j - 1);
      }
    }
  }

  /** The leftmost occurrence: where the count starts and the replacement happens. */
  lemma {:induction false} Leftmost(text: string, find: string, replacement: string) returns (i: nat)
    requires find != "" && Count(text, find) > 0
    ensures LeftmostAt(text, find, i)
    ensures Count(text, find) == 1 + Count(text[i + |find|..], find)
    ensures ReplaceFirst(text, find, replacement) == text[..i] + replacement + text[i + |find|..]
  {
    if find <= text {
      i := 0;
    } else {
      var tail := text[1..];
      var k := Leftmost(tail, find, replacement);
      i := k + 1;
      LeftmostShifts(text, find, k);
      assert tail[k + |find|..] == text[i + |find|..];
      var head, rest := tail[..k], tail[k + |find|..];
      assert text[..i] == [text[0]] + head;
      assert [text[0]] + (head + replacement + rest) == [text[0]] + head + replacement + rest;
    }
  }

  /** The place a unique match is replaced at: the leftmost one, with none beginning after it ends. */
  ghost predicate OnlyMatch(text: string, find: string, i: nat) {
    LeftmostAt(text, find, i) && forall j | i + |find| <= j :: !OccursAt(text, find, j)
  }

  /**
   A count of one means one leftmost match with none beginning after its end (matches that
   overlap it are not counted), and then the replacement is made exactly there.
   */
  lemma CountOneIff(text: string, find: string, replacement: string)
    requires find != ""
    ensures Count(text, find) == 1 <==> exists i: nat :: OnlyMatch(text, find, i)
    ensures forall i: nat | OnlyMatch(text, find, i) ::
      ReplaceFirst(text, find, replacement) == text[..i] + replacement + text[i + |find|..]
  {
    CountZero(text, find);
    if Count(text, find) > 0 {
      var i := Leftmost(text, find, replacement);
      var rest := text[i + |find|..];
      CountZero(rest, find);
      TailOccurrences(text, find, i + |find|);
      assert Count(text, find) == 1 ==> OnlyMatch(text, find, i);
      forall k: nat | OnlyMatch(text, find, k) ensures k == i {
        assert !(k < i) && !(i < k);
      }
    }
  }
}
