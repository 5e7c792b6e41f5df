/** Text as lines, and the line reader of an input stream. */
module Lines {

  function NewlineAt(s: string): (k: nat)
    ensures k <= |s| && forall i :: 0 <= i < k ==> s[i] != '\n'
    ensures k < |s| ==> s[k] == '\n'
  {
    if s == [] || s[0] == '\n' then 0 else NewlineAt(s[1..]) + 1
  }

  lemma FirstNewline(s: string, n: nat)
    requires n <= |s| && (forall i :: 0 <= i < n ==> s[i] != '\n') && (n < |s| ==> s[n] == '\n')
    ensures NewlineAt(s) == n
  {
  }

  /** The lines of a text that end in a newline. */
  function Terminated(s: string): seq<string> {
    var k := NewlineAt(s);
    if k == |s| then [] else [s[..k]] + Terminated(s[k + 1..])
  }

  /** What follows the last newline. */
  function Remainder(s: string): string {
    var k := NewlineAt(s);
    if k == |s| then s else Remainder(s[k + 1..])
  }

  /** All lines, with a last one that has no newline unless it is empty. */
  function AllLines(s: string): seq<string> {
    Terminated(s) + if Remainder(s) == [] then [] else [Remainder(s)]
  }

  function Unlines(ls: seq<string>): string {
    if ls == [] then [] else ls[0] + ['\n'] + Unlines(ls[1..])
  }

  ghost predicate IsLine(s: string) {
    forall i :: 0 <= i < |s| ==> s[i] != '\n'
  }

  /** Lines written out and read again are the same lines. */
  lemma {:induction false} LinesOfUnlines(ls: seq<string>, tail: string)
    requires (forall l :: l in ls ==> IsLine(l)) && IsLine(tail)
    ensures Terminated(Unlines(ls) + tail) == ls && Remainder(Unlines(ls) + tail) == tail
  {
    var s := Unlines(ls) + tail;
    if ls == [] {
      assert s == tail;
      FirstNewline(s, |s|);
    } else {
      assert IsLine(ls[0]);
      assert s == ls[0] + ['\n'] + (Unlines(ls[1..]) + tail);
      FirstNewline(s, |ls[0]|);
      assert s[..|ls[0]|] == ls[0];
      assert s[|ls[0]| + 1..] == Unlines(ls[1..]) + tail;
      LinesOfUnlines(ls[1..], tail);
    }
  }

  lemma UnlinesCons(line: string, ls: seq<string>, tail: string)
    ensures Unlines([line] + ls) + tail == line + ['\n'] + (Unlines(ls) + tail)
  {
    assert ([line] + ls)[1..] == ls;
  }

  lemma Rejoin(s: string, k: nat)
    requires k < |s| && s[k] == '\n'
    ensures s == s[..k] + ['\n'] + s[k + 1..]
  {
  }

  /** Nothing of a text is lost by cutting it into lines. */
  lemma {:induction false} LinesRebuildText(s: string)
    ensures Unlines(Terminated(s)) + Remainder(s) == s
  {
    var k := NewlineAt(s);
    if k < |s| {
      var rest := s[k + 1..];
      LinesRebuildText(rest);
      Rejoin(s, k);
      UnlinesCons(s[..k], Terminated(rest), Remainder(rest));
    }
  }

  lemma {:induction false} LinesAreLines(s: string)
    ensures (forall l :: l in Terminated(s) ==> IsLine(l)) && IsLine(Remainder(s))
  {
    var k := NewlineAt(s);
    if k < |s| {
      LinesAreLines(s[k + 1..]);
    }
  }

  lemma CutFirst(s: string, n: nat)
    requires n < |s| && (forall i :: 0 <= i < n ==> s[i] != '\n') && s[n] == '\n'
    ensures Terminated(s) == [s[..n]] + Terminated(s[n + 1..])
    ensures Remainder(s) == Remainder(s[n + 1..])
  {
    FirstNewline(s, n);
  }

  lemma AllLinesCons(s: string, line: string, rest: string)
    requires Terminated(s) == [line] + Terminated(rest) && Remainder(s) == Remainder(rest)
    ensures AllLines(s) == [line] + AllLines(rest)
  {
  }

  lemma CutLast(s: string)
    requires IsLine(s)
    ensures Terminated(s) == [] && Remainder(s) == s
    ensures AllLines(s) == if s == [] then [] else [s]
  {
    FirstNewline(s, |s|);
  }

  /** An input stream over a text, with the two state bits std::getline sets. */
  class TextStream {
    const text: string
    var pos: nat
    var eof: bool
    var fail: bool

    ghost predicate Valid()
      reads this
    {
      pos <= |text| && (fail ==> eof) && (eof ==> pos == |text|)
    }

    ghost function Rest(): string
      reads this
      requires Valid()
    {
      text[pos..]
    }

    predicate Good()
      reads this
    {
      !eof && !fail
    }

    constructor (text: string)
      ensures Valid() && Rest() == text && Good()
    {
      this.text := text;
      pos, eof, fail := 0, false, false;
    }

    /** std::getline: the characters up to the next newline, which is consumed.
        Running into the end sets `eof`; finding nothing at all sets `fail`. */
    method GetLine() returns (line: string)
      requires Valid()
      modifies this
      ensures Valid()
      ensures old(Good()) ==> (fail <==> old(Rest()) == "") && IsLine(line)
      ensures old(Good()) && !eof ==> |old(Rest())| == |line| + 1 + |Rest()|
                                      && Terminated(old(Rest())) == [line] + Terminated(Rest())
      ensures old(Good()) && eof ==> old(Rest()) == line && Rest() == "" && Terminated(old(Rest())) == []
      ensures old(Good()) && !fail ==> AllLines(old(Rest())) == [line] + AllLines(Rest())
      ensures !old(Good()) ==> line == [] && fail && eof && Rest() == old(Rest())
    {
      line := [];
      if eof || fail {
        fail, eof, pos := true, true, |text|;
        return;
      }
      ghost var start := pos;
      while pos < |text| && text[pos] != '\n'
        invariant start <= pos <= |text|
        invariant Good() && line == text[start..pos] && forall i :: start <= i < pos ==> text[i] != '\n'
      {
        line := line + [text[pos]];
        pos := pos + 1;
      }
      ghost var s, n := text[start..], pos - start;
      assert line == s[..n];
      if pos == |text| {
        assert line == s;
        CutLast(s);
        eof := true;
        fail := line == [];
      } else {
        CutFirst(s, n);
        AllLinesCons(s, line, s[n + 1..]);
        pos := pos + 1;
        assert text[pos..] == s[n + 1..];
      }
    }
  }
}
