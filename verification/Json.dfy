/** Property trees: the tree of keyed nodes used for JSON documents. A node has
    its own text and an ordered list of children, whose keys may repeat. */
module Json {
  import opened Numerals
  import opened Wrappers

  datatype Tree = Tree(data: string, children: seq<(string, Tree)>)

  const EMPTY := Tree("", [])

  function Leaf(data: string): Tree {
    Tree(data, [])
  }

  /** The first child of that key. */
  function IndexOf(children: seq<(string, Tree)>, key: string): (i: nat)
    ensures i <= |children|
    ensures i < |children| ==> children[i].0 == key
    ensures forall k :: 0 <= k < i ==> children[k].0 != key
  {
    if children == [] || children[0].0 == key then 0 else 1 + IndexOf(children[1..], key)
  }

  function GetChild(t: Tree, path: seq<string>): Option<Tree> {
    if path == [] then Some(t)
    else
      var i := IndexOf(t.children, path[0]);
      if i == |t.children| then None else GetChild(t.children[i].1, path[1..])
  }

  function GetText(t: Tree, path: seq<string>): Option<string> {
    var child := GetChild(t, path);
    if child.None? then None else Some(child.value.data)
  }

  /** Adds a new node at the end of the path, creating what is missing on the way. */
  function Add(t: Tree, path: seq<string>, value: Tree): Tree
    requires path != []
    decreases |path|
  {
    if |path| == 1 then t.(children := t.children + [(path[0], value)])
    else
      var i := IndexOf(t.children, path[0]);
      if i == |t.children| then t.(children := t.children + [(path[0], Add(EMPTY, path[1..], value))])
      else t.(children := t.children[i := (path[0], Add(t.children[i].1, path[1..], value))])
  }

  /** A tree without text from its children. */
  function Object(children: seq<(string, Tree)>): Tree {
    Tree("", children)
  }

  // ---------- integers as text ----------

  function ShowInt(n: int): string {
    if n < 0 then "-" + Digits(-n) else Digits(n)
  }

  function ReadNat(s: string): Option<nat> {
    if s != "" && LeadingDigits(s) == s then Some(Value(s)) else None
  }

  function ReadInt(s: string): Option<int> {
    if "-" <= s then
      var n := ReadNat(s[1..]);
      if n.None? then None else
        var m: int := n.value;
        Some(-m)
    else ReadNat(s)
  }

  /** A minus exactly for negative numbers, then digits worth the number, without
      leading zeros. */
  lemma ShowIntMeaning(n: int)
    ensures "-" <= ShowInt(n) <==> n < 0
    ensures var digits := if n < 0 then ShowInt(n)[1..] else ShowInt(n);
            && digits != "" && (forall i :: 0 <= i < |digits| ==> IsDigit(digits[i]))
            && Value(digits) == (if n < 0 then -n else n)
            && (|digits| > 1 ==> digits[0] != '0')
  {
    var m: nat := if n < 0 then -n else n;
    ValueOfDigits(m);
    if n < 0 {
      assert ShowInt(n)[1..] == Digits(m);
    } else {
      assert ShowInt(n)[0] != '-';
    }
  }

  lemma NatReadsBack(n: nat)
    ensures ReadNat(Digits(n)) == Some(n)
  {
    ValueOfDigits(n);
    LeadingDigitsStop(Digits(n), "");
    assert Digits(n) + "" == Digits(n);
  }

  lemma IntReadsBack(n: int)
    ensures ReadInt(ShowInt(n)) == Some(n)
  {
    NatReadsBack(if n < 0 then -n else n);
    if n < 0 {
      assert ShowInt(n)[1..] == Digits(-n);
    } else {
      assert ShowInt(n)[0] != '-';
    }
  }

  // ---------- adding ----------

  lemma AddsUnderNewKey(t: Tree, key: string, inner: string, value: Tree)
    requires forall k :: 0 <= k < |t.children| ==> t.children[k].0 != key
    ensures Add(t, [key, inner], value) == t.(children := t.children + [(key, Object([(inner, value)]))])
  {
    IndexIs(t.children, key, |t.children|);
    assert [key, inner][1..] == [inner];
    assert EMPTY.children + [(inner, value)] == [(inner, value)];
  }

  lemma AddsUnderOldKey(t: Tree, key: string, i: nat, inner: string, value: Tree)
    requires i < |t.children| && t.children[i].0 == key
    requires forall k :: 0 <= k < i ==> t.children[k].0 != key
    ensures Add(t, [key, inner], value)
            == t.(children := t.children[i := (key, t.children[i].1.(children := t.children[i].1.children + [(inner, value)]))])
  {
    IndexIs(t.children, key, i);
    assert [key, inner][1..] == [inner];
  }

  // ---------- reading what was added ----------

  /** A child is found by its key when nothing before it has the key. */
  lemma {:induction false} IndexIs(children: seq<(string, Tree)>, key: string, i: nat)
    requires i <= |children|
    requires forall k :: 0 <= k < i ==> children[k].0 != key
    requires i < |children| ==> children[i].0 == key
    ensures IndexOf(children, key) == i
  {
  }

  lemma ChildAt(t: Tree, key: string, i: nat)
    requires i < |t.children| && t.children[i].0 == key
    requires forall k :: 0 <= k < i ==> t.children[k].0 != key
    ensures GetChild(t, [key]) == Some(t.children[i].1)
    ensures GetText(t, [key]) == Some(t.children[i].1.data)
  {
    IndexIs(t.children, key, i);
    assert GetChild(t.children[i].1, [key][1..]) == Some(t.children[i].1);
  }

  lemma NoChild(t: Tree, key: string)
    requires forall k :: 0 <= k < |t.children| ==> t.children[k].0 != key
    ensures GetChild(t, [key]) == None && GetText(t, [key]) == None
  {
    IndexIs(t.children, key, |t.children|);
  }

  lemma GrandchildAt(t: Tree, key: string, i: nat, inner: string, j: nat)
    requires i < |t.children| && t.children[i].0 == key
    requires forall k :: 0 <= k < i ==> t.children[k].0 != key
    requires var c := t.children[i].1; j < |c.children| && c.children[j].0 == inner
                                       && forall k :: 0 <= k < j ==> c.children[k].0 != inner
    ensures GetText(t, [key, inner]) == Some(t.children[i].1.children[j].1.data)
  {
    IndexIs(t.children, key, i);
    ChildAt(t.children[i].1, inner, j);
    assert [key, inner][1..] == [inner];
  }

  // ---------- what adding a grandchild does to reading ----------

  lemma AddKeepsOtherPaths(t: Tree, key: string, inner: string, value: Tree, path: seq<string>)
    requires path != [] && path[0] != key
    ensures GetChild(Add(t, [key, inner], value), path) == GetChild(t, path)
  {
    var after := Add(t, [key, inner], value);
    var i, j := IndexOf(t.children, key), IndexOf(t.children, path[0]);
    assert [key, inner][1..] == [inner];
    if j < |t.children| {
      IndexIs(after.children, path[0], j);
    } else {
      IndexIs(after.children, path[0], |after.children|);
    }
  }

  /** Reading the place just added to finds what was there first. */
  lemma AddedIsFoundLast(t: Tree, key: string, inner: string, text: string)
    ensures GetText(Add(t, [key, inner], Leaf(text)), [key, inner])
            == if GetText(t, [key, inner]).Some? then GetText(t, [key, inner]) else Some(text)
  {
    var after := Add(t, [key, inner], Leaf(text));
    var i := IndexOf(t.children, key);
    assert [key, inner][1..] == [inner];
    IndexIs(after.children, key, i);
    var child := if i < |t.children| then t.children[i].1 else EMPTY;
    assert after.children[i].1 == Add(child, [inner], Leaf(text));
    ReadAfterAppend(child, inner, inner, text);
    assert GetText(EMPTY, [inner]) == None;
  }

  lemma AddKeepsSiblings(t: Tree, key: string, inner: string, text: string, sibling: string)
    requires sibling != inner
    ensures GetText(Add(t, [key, inner], Leaf(text)), [key, sibling]) == GetText(t, [key, sibling])
  {
    var after := Add(t, [key, inner], Leaf(text));
    var i := IndexOf(t.children, key);
    assert [key, inner][1..] == [inner] && [key, sibling][1..] == [sibling];
    IndexIs(after.children, key, i);
    var child := if i < |t.children| then t.children[i].1 else EMPTY;
    ReadAfterAppend(child, inner, sibling, text);
    assert GetText(EMPTY, [sibling]) == None;
  }

  lemma ReadAfterAppend(t: Tree, key: string, asked: string, text: string)
    ensures GetText(Add(t, [key], Leaf(text)), [asked])
            == if asked != key || GetText(t, [asked]).Some? then GetText(t, [asked]) else Some(text)
  {
    var after := Add(t, [key], Leaf(text));
    var j := IndexOf(t.children, asked);
    assert [asked][1..] == [];
    if j < |t.children| {
      assert after.children[j] == t.children[j];
      ChildAt(after, asked, j);
      ChildAt(t, asked, j);
    } else if asked == key {
      ChildAt(after, asked, |t.children|);
    } else {
      IndexIs(after.children, asked, |after.children|);
    }
  }

  // ---------- lists ----------

  function ShowList<T>(xs: seq<T>, show: T -> Tree): seq<(string, Tree)> {
    seq(|xs|, i requires 0 <= i < |xs| => ("", show(xs[i])))
  }

  method BuildList<T>(xs: seq<T>, show: T -> Tree) returns (list: Tree)
    ensures list == Object(ShowList(xs, show))
  {
    list := EMPTY;
    for i := 0 to |xs|
      invariant list == Object(ShowList(xs[..i], show))
    {
      list := list.(children := list.children + [("", show(xs[i]))]);
      assert list.children == ShowList(xs[..i + 1], show);
    }
    assert xs[..|xs|] == xs;
  }

  /** Every child of a list, whatever its key; the first one that cannot be read
      fails the list. */
  function ReadList<T, E>(children: seq<(string, Tree)>, read: Tree -> Result<T, E>): Result<seq<T>, E> {
    if children == [] then Success([]) else
      var first := read(children[0].1);
      if first.Failure? then Failure(first.error) else
        var rest := ReadList(children[1..], read);
        if rest.Failure? then Failure(rest.error) else Success([first.value] + rest.value)
  }

  /** Where a list is read in order, what is left to read decides. */
  function Continue<T, E>(done: seq<T>, rest: Result<seq<T>, E>): Result<seq<T>, E> {
    if rest.Failure? then Failure(rest.error) else Success(done + rest.value)
  }

  method ReadChildren<T, E>(children: seq<(string, Tree)>, read: Tree -> Result<T, E>) returns (r: Result<seq<T>, E>)
    ensures r == ReadList(children, read)
  {
    var output: seq<T> := [];
    assert children[0..] == children;
    ContinueNothing(ReadList(children, read));
    for i := 0 to |children|
      invariant ReadList(children, read) == Continue(output, ReadList(children[i..], read))
    {
      assert children[i..][1..] == children[i + 1..];
      var first := read(children[i].1);
      if first.Failure? {
        return Failure(first.error);
      }
      ghost var rest := ReadList(children[i + 1..], read);
      assert rest.Success? ==> output + ([first.value] + rest.value) == output + [first.value] + rest.value;
      output := output + [first.value];
    }
    assert children[|children|..] == [] && output + [] == output;
    return Success(output);
  }

  lemma ContinueNothing<T, E>(rest: Result<seq<T>, E>)
    ensures Continue([], rest) == rest
  {
    if rest.Success? {
      assert [] + rest.value == rest.value;
    }
  }

  function Mapped<T, U>(xs: seq<T>, f: T -> U): (r: seq<U>)
    ensures |r| == |xs| && forall i :: 0 <= i < |xs| ==> r[i] == f(xs[i])
  {
    seq(|xs|, i requires 0 <= i < |xs| => f(xs[i]))
  }

  lemma {:induction false} ListReadsBack<T(!new), E>(xs: seq<T>, show: T -> Tree, read: Tree -> Result<T, E>, normal: T -> T)
    requires forall x :: read(show(x)) == Success(normal(x))
    ensures ReadList(ShowList(xs, show), read) == Success(Mapped(xs, normal))
  {
    if xs != [] {
      ListReadsBack(xs[1..], show, read, normal);
      assert ShowList(xs, show)[1..] == ShowList(xs[1..], show);
      assert Mapped(xs, normal) == [normal(xs[0])] + Mapped(xs[1..], normal);
    }
  }

  /** A list can be read exactly if all its children can, and in their order. */
  lemma {:induction false} ListIsReadIff<T(!new), E(!new)>(children: seq<(string, Tree)>, read: Tree -> Result<T, E>, xs: seq<T>)
    ensures ReadList(children, read) == Success(xs)
            <==> |xs| == |children| && forall i :: 0 <= i < |children| ==> read(children[i].1) == Success(xs[i])
    decreases |children|
  {
    if children != [] && xs != [] {
      ListIsReadIff(children[1..], read, xs[1..]);
      assert xs == [xs[0]] + xs[1..];
      assert (forall i :: 0 <= i < |children| && |xs| == |children| ==> read(children[i].1) == Success(xs[i]))
             ==> forall i :: 0 <= i < |children[1..]| && |xs| == |children| ==> read(children[1..][i].1) == Success(xs[1..][i]);
    }
  }

  lemma {:induction false} ListErrors<T, E>(children: seq<(string, Tree)>, read: Tree -> Result<T, E>) returns (i: nat)
    requires ReadList(children, read).Failure?
    ensures i < |children| && read(children[i].1) == Failure(ReadList(children, read).error)
  {
    i := 0;
    if read(children[0].1).Success? {
      var k := ListErrors(children[1..], read);
      i := k + 1;
    }
  }

  // ---------- optional children ----------

  /** The child for a text that is there. */
  function Given(key: string, text: Option<string>): seq<(string, Tree)> {
    if text.Some? then [(key, Leaf(text.value))] else []
  }

  ghost predicate LacksKey(children: seq<(string, Tree)>, key: string) {
    forall k :: 0 <= k < |children| ==> children[k].0 != key
  }

  lemma StillLacksKey(children: seq<(string, Tree)>, other: string, text: Option<string>, key: string)
    requires LacksKey(children, key) && other != key
    ensures LacksKey(children + Given(other, text), key)
  {
  }

  lemma GivenIsFound(before: seq<(string, Tree)>, key: string, text: Option<string>, after: seq<(string, Tree)>)
    requires LacksKey(before, key) && LacksKey(after, key)
    ensures GetText(Object(before + Given(key, text) + after), [key]) == text
  {
    var t := Object(before + Given(key, text) + after);
    if text.Some? {
      ChildAt(t, key, |before|);
    } else {
      NoChild(t, key);
    }
  }
}
