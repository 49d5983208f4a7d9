/** The part of Python's `pathlib.PurePosixPath` (up to 3.13) that the classifier of changed paths relies on. */
module PosixPath {
  /** `text.split("/")`. */
  function Split(text: string): (r: seq<string>)
    ensures |r| >= 1
  {
    if text == "" then [""]
    else if text[0] == '/' then [""] + Split(text[1..])
    else var rest := Split(text[1..]); [[text[0]] + rest[0]] + rest[1..]
  }

  predicate AllNamed(components: seq<string>) {
    forall i :: 0 <= i < |components| ==> |components[i]| > 0
  }

  /** Empty and "." components do not count. */
  function Kept(components: seq<string>): (r: seq<string>)
    ensures AllNamed(r)
  {
    if components == [] then []
    else if components[0] == "" || components[0] == "." then Kept(components[1..])
    else [components[0]] + Kept(components[1..])
  }

  function Tail(path: string): (r: seq<string>)
    ensures AllNamed(r)
  {
    Kept(Split(path))
  }

  function Root(path: string): string {
    if path == "" || path[0] != '/' then ""
    else if |path| >= 2 && path[1] == '/' && !(|path| >= 3 && path[2] == '/') then "//"
    else "/"
  }

  function Parts(path: string): seq<string> {
    if Root(path) == "" then Tail(path) else [Root(path)] + Tail(path)
  }

  function Name(path: string): string {
    if Tail(path) == [] then "" else Tail(path)[|Tail(path)| - 1]
  }

  function Join(components: seq<string>): string {
    if components == [] then ""
    else if |components| == 1 then components[0]
    else components[0] + "/" + Join(components[1..])
  }

  /** `str(PurePosixPath(path))`. */
  function Str(path: string): string {
    var text := Root(path) + Join(Tail(path));
    if text == "" then "." else text
  }

  /** The place of the last dot before `end`; -1 when there is none. */
  function LastDot(name: string, end: nat): int
    requires end <= |name|
  {
    if end == 0 then -1 else if name[end - 1] == '.' then end - 1 else LastDot(name, end - 1)
  }

  /** The suffix of a name: nothing for a leading or a trailing dot. */
  function Suffix(name: string): string {
    var i := LastDot(name, |name|);
    if 0 < i < |name| - 1 then name[i..] else ""
  }

  predicate EndsWith(text: string, suffix: string) {
    |suffix| <= |text| && text[|text| - |suffix|..] == suffix
  }

  // ---------- The first and the last component ----------

  lemma {:induction false} SplitFirst(first: string, rest: string)
    requires '/' !in first
    ensures Split(first + "/" + rest) == [first] + Split(rest)
  {
    var text := first + "/" + rest;
    if first == "" {
      assert text[1..] == rest;
    } else {
      SplitFirst(first[1..], rest);
      assert text[1..] == first[1..] + "/" + rest;
      assert [first[0]] + first[1..] == first;
    }
  }

  lemma {:induction false} SplitLast(text: string, end: string)
    requires EndsWith(text, end) && '/' !in end
    ensures EndsWith(Split(text)[|Split(text)| - 1], end)
  {
    if text == "" {
    } else if |text| == |end| {
      assert text == end;
      SplitWhole(text);
    } else {
      assert EndsWith(text[1..], end);
      SplitLast(text[1..], end);
      var rest := Split(text[1..]);
      if text[0] != '/' && |rest| == 1 {
        assert EndsWith([text[0]] + rest[0], end);
      }
    }
  }

  lemma {:induction false} SplitWhole(text: string)
    requires '/' !in text
    ensures Split(text) == [text]
  {
    if text != "" {
      SplitWhole(text[1..]);
      assert [text[0]] + text[1..] == text;
    }
  }

  lemma {:induction false} KeptLast(components: seq<string>)
    requires components != [] && components[|components| - 1] != "" && components[|components| - 1] != "."
    ensures Kept(components) != [] && Kept(components)[|Kept(components)| - 1] == components[|components| - 1]
  {
    if |components| > 1 {
      KeptLast(components[1..]);
    }
  }

  lemma {:induction false} JoinEnds(components: seq<string>)
    requires components != [] && AllNamed(components)
    ensures |Join(components)| > 0 && Join(components)[0] == components[0][0]
    ensures Join(components)[|Join(components)| - 1] == components[|components| - 1][|components[|components| - 1]| - 1]
  {
    if |components| > 1 {
      JoinEnds(components[1..]);
    }
  }

  /** A path written as it prints begins with its first part and ends with its name. */
  lemma CanonicalEnds(path: string)
    requires Str(path) == path && Root(path) == "" && Tail(path) != []
    ensures |path| > 0 && |Parts(path)[0]| > 0 && Parts(path)[0][0] == path[0]
    ensures |Name(path)| > 0 && Name(path)[|Name(path)| - 1] == path[|path| - 1]
  {
    JoinEnds(Tail(path));
    assert path == Join(Tail(path));
  }

  lemma SuffixOf(name: string, end: string)
    requires |end| == 4 && EndsWith(name, end) && end[1] == '.' && end[2] != '.' && end[3] != '.'
    ensures Suffix(name) == end[1..]
  {
    var n := |name|;
    assert name[n - 4..] == end;
    assert name[n - 1] == end[3] && name[n - 2] == end[2] && name[n - 3] == end[1];
    assert LastDot(name, n) == LastDot(name, n - 1) == LastDot(name, n - 2) == n - 3;
    assert name[n - 3..] == end[1..];
  }

  lemma TailUnder(dir: string, rest: string)
    requires '/' !in dir && dir != "" && dir != "."
    ensures Root(dir + "/" + rest) == "" && Tail(dir + "/" + rest) == [dir] + Tail(rest)
  {
    SplitFirst(dir, rest);
    assert ([dir] + Split(rest))[1..] == Split(rest);
    assert (dir + "/" + rest)[0] == dir[0] && dir[0] in dir;
  }

  lemma LastKept(rest: string, end: string)
    requires |end| == 4 && '/' !in end && EndsWith(rest, end)
    ensures Tail(rest) != [] && EndsWith(Tail(rest)[|Tail(rest)| - 1], end)
  {
    SplitLast(rest, end);
    KeptLast(Split(rest));
  }

  /** A file with a two letter suffix under a directory of the root. */
  lemma FileUnder(dir: string, rest: string, end: string)
    requires '/' !in dir && dir != "" && dir != "."
    requires |end| == 4 && '/' !in end && EndsWith(rest, end) && end[1] == '.' && end[2] != '.' && end[3] != '.'
    ensures var path := dir + "/" + rest;
            |Parts(path)| >= 2 && Parts(path)[0] == dir && Suffix(Name(path)) == end[1..]
  {
    TailUnder(dir, rest);
    LastKept(rest, end);
    SuffixOf(Tail(rest)[|Tail(rest)| - 1], end);
  }
}
