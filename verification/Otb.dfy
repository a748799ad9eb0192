/** The OTB container format: a tree of nodes marked by START, END and ESCAPE bytes, parsed with
    an explicit stack. */
module Otb {
  import opened Wrappers
  import opened Streams

  const ESCAPE: byte := 0xFD
  const START: byte := 0xFE
  const END: byte := 0xFF
  const IDENTIFIER := 4

  /** A node as it stands in a file: the property bytes still escaped, and after every child the
      bytes up to the next mark, which nothing ever reads. */
  datatype Raw = Raw(typ: byte, props: seq<byte>, kids: seq<Branch>)
  datatype Branch = Branch(node: Raw, gap: seq<byte>)

  /** Bytes without marks: escapes come with the byte they escape. */
  predicate Inert(s: seq<byte>) {
    s == [] ||
    (if s[0] == ESCAPE then |s| >= 2 && Inert(s[2..]) else s[0] != START && s[0] != END && Inert(s[1..]))
  }

  predicate WellFormed(r: Raw)
    decreases r
  {
    Inert(r.props) && forall k :: 0 <= k < |r.kids| ==> WellFormed(r.kids[k].node) && Inert(r.kids[k].gap)
  }

  function Encode(r: Raw): seq<byte>
    decreases r, 1
  {
    Open(r) + [END]
  }

  /** A node up to but not including its END mark. */
  function Open(r: Raw): seq<byte>
    decreases r, 0
  {
    [START, r.typ] + r.props + EncodeKids(r.kids)
  }

  function EncodeKids(kids: seq<Branch>): seq<byte>
    decreases kids, 2
  {
    if kids == [] then [] else
      EncodeKids(kids[..|kids| - 1]) + Encode(kids[|kids| - 1].node) + kids[|kids| - 1].gap
  }

  // ----- the parser as a machine over the bytes that are left

  /** Bytes that belong to no mark go to the properties, or behind the last child. */
  function Absorb(r: Raw, s: seq<byte>): Raw {
    if r.kids == [] then r.(props := r.props + s)
    else var last := |r.kids| - 1; r.(kids := r.kids[..last] + [Branch(r.kids[last].node, r.kids[last].gap + s)])
  }

  function Adopt(r: Raw, kid: Raw): Raw {
    r.(kids := r.kids + [Branch(kid, [])])
  }

  /** Nodes that are open, the root first, or the closed root and the bytes after it. */
  datatype State = Parsing(stack: seq<Raw>) | Closed(root: Raw, tail: seq<byte>)

  function Push(st: State, s: seq<byte>): State
    requires st.Parsing? ==> st.stack != []
  {
    match st
    case Parsing(stack) => Parsing(stack[..|stack| - 1] + [Absorb(stack[|stack| - 1], s)])
    case Closed(root, tail) => Closed(root, tail + s)
  }

  function Pop(stack: seq<Raw>): State
    requires stack != []
  {
    var n := |stack|;
    if n == 1 then Closed(stack[0], []) else Parsing(stack[..n - 2] + [Adopt(stack[n - 2], stack[n - 1])])
  }

  /** The loop of `parseTree` on the bytes `s` that are left. */
  function Run(s: seq<byte>, st: State): (r: Option<(Raw, seq<byte>)>)
    requires st.Parsing? ==> st.stack != []
    decreases |s|
  {
    if s == [] then (if st.Closed? then Some((st.root, st.tail)) else None)
    else if s[0] == START then
      if st.Closed? || |s| < 2 then None else Run(s[2..], Parsing(st.stack + [Raw(s[1], [], [])]))
    else if s[0] == END then
      if st.Closed? then None else Run(s[1..], Pop(st.stack))
    else if s[0] == ESCAPE then
      if |s| < 2 then None else Run(s[2..], Push(st, s[..2]))
    else Run(s[1..], Push(st, s[..1]))
  }

  /** `parseTree` on a whole file: identifier, START, type, and the rest. */
  function Parse(data: seq<byte>): Option<(Raw, seq<byte>)>
    requires |data| >= IDENTIFIER + 2
  {
    if data[IDENTIFIER] != START then None
    else Run(data[IDENTIFIER + 2..], Parsing([Raw(data[IDENTIFIER + 1], [], [])]))
  }

  // ----- everything accepted is an encoding

  function OpenAll(stack: seq<Raw>): seq<byte> {
    if stack == [] then [] else OpenAll(stack[..|stack| - 1]) + Open(stack[|stack| - 1])
  }

  function Consumed(st: State): seq<byte> {
    match st
    case Parsing(stack) => OpenAll(stack)
    case Closed(root, tail) => Encode(root) + tail
  }

  predicate StateOk(st: State) {
    match st
    case Parsing(stack) => stack != [] && forall k :: 0 <= k < |stack| ==> WellFormed(stack[k])
    case Closed(root, tail) => WellFormed(root) && Inert(tail)
  }

  lemma {:induction false} InertConcat(a: seq<byte>, b: seq<byte>)
    requires Inert(a) && Inert(b)
    ensures Inert(a + b)
    decreases |a|
  {
    if a == [] {
      assert a + b == b;
    } else if a[0] == ESCAPE {
      assert (a + b)[2..] == a[2..] + b;
      InertConcat(a[2..], b);
    } else {
      assert (a + b)[1..] == a[1..] + b;
      InertConcat(a[1..], b);
    }
  }

  lemma Regroup(a: seq<byte>, b: seq<byte>, c: seq<byte>)
    ensures a + b + c == a + (b + c)
  {
  }

  lemma AbsorbOpen(r: Raw, s: seq<byte>)
    requires WellFormed(r) && Inert(s)
    ensures Open(Absorb(r, s)) == Open(r) + s && WellFormed(Absorb(r, s))
  {
    hide Inert;
    var head := [START, r.typ];
    if r.kids == [] {
      InertConcat(r.props, s);
      assert head + (r.props + s) + [] == head + r.props + [] + s;
    } else {
      var last := |r.kids| - 1;
      InertConcat(r.kids[last].gap, s);
      LastGap(r.kids, Absorb(r, s).kids, s);
      Regroup(head + r.props, EncodeKids(r.kids), s);
    }
  }

  lemma LastGap(kids: seq<Branch>, now: seq<Branch>, s: seq<byte>)
    requires kids != []
    requires var last := kids[|kids| - 1]; now == kids[..|kids| - 1] + [Branch(last.node, last.gap + s)]
    ensures EncodeKids(now) == EncodeKids(kids) + s
  {
    hide Encode;
    var last := |kids| - 1;
    assert now[..last] == kids[..last];
    Regroup(EncodeKids(kids[..last]) + Encode(kids[last].node), kids[last].gap, s);
  }

  lemma AdoptOpen(r: Raw, kid: Raw)
    requires WellFormed(r) && WellFormed(kid)
    ensures Open(Adopt(r, kid)) == Open(r) + Encode(kid) && WellFormed(Adopt(r, kid))
  {
    var kids := Adopt(r, kid).kids;
    assert kids[..|kids| - 1] == r.kids;
    assert EncodeKids(kids) == EncodeKids(r.kids) + Encode(kid) + [];
  }

  lemma OpenAllLast(stack: seq<Raw>, top: Raw)
    ensures OpenAll(stack + [top]) == OpenAll(stack) + Open(top)
  {
    assert (stack + [top])[..|stack|] == stack;
  }

  lemma PushConsumed(st: State, s: seq<byte>)
    requires StateOk(st) && Inert(s)
    ensures StateOk(Push(st, s)) && Consumed(Push(st, s)) == Consumed(st) + s
  {
    match st
    case Parsing(stack) =>
      TopConsumed(stack, s);
    case Closed(root, tail) =>
      InertConcat(tail, s);
      Regroup(Encode(root), tail, s);
  }

  lemma TopConsumed(stack: seq<Raw>, s: seq<byte>)
    requires StateOk(Parsing(stack)) && Inert(s)
    ensures StateOk(Push(Parsing(stack), s)) && Consumed(Push(Parsing(stack), s)) == OpenAll(stack) + s
  {
    hide Inert, WellFormed, Open, Absorb;
    var below, top := stack[..|stack| - 1], stack[|stack| - 1];
    AbsorbOpen(top, s);
    OpenAllLast(below, Absorb(top, s));
    assert OpenAll(stack) == OpenAll(below) + Open(top);
    Regroup(OpenAll(below), Open(top), s);
  }

  lemma PopConsumed(stack: seq<Raw>)
    requires StateOk(Parsing(stack))
    ensures StateOk(Pop(stack)) && Consumed(Pop(stack)) == OpenAll(stack) + [END]
  {
    hide Open, WellFormed, Inert, Adopt;
    var n := |stack|;
    var top := stack[n - 1];
    if n == 1 {
      assert [] + Open(top) + [END] + [] == Encode(top);
      NothingInert();
    } else {
      var below, parent := stack[..n - 2], stack[n - 2];
      AdoptOpen(parent, top);
      OpenAllLast(below, Adopt(parent, top));
      assert stack[..n - 1][..n - 2] == below;
      Regroup(OpenAll(below) + Open(parent), Open(top), [END]);
      Regroup(OpenAll(below), Open(parent), Encode(top));
    }
  }

  lemma NothingInert()
    ensures Inert([])
  {
  }

  lemma StartConsumed(stack: seq<Raw>, typ: byte)
    requires StateOk(Parsing(stack))
    ensures StateOk(Parsing(stack + [Raw(typ, [], [])]))
    ensures OpenAll(stack + [Raw(typ, [], [])]) == OpenAll(stack) + [START, typ]
  {
    OpenAllLast(stack, Raw(typ, [], []));
    assert Open(Raw(typ, [], [])) == [START, typ] + [] + [];
  }

  /** If the machine accepts, what it consumed and what was left are one encoding and a tail. */
  lemma {:induction false} RunSound(s: seq<byte>, st: State)
    requires StateOk(st) && Run(s, st).Some?
    ensures var (r, tail) := Run(s, st).value;
      WellFormed(r) && Inert(tail) && Consumed(st) + s == Encode(r) + tail
    decreases |s|
  {
    hide WellFormed, Encode, OpenAll, Push, Pop, StateOk, Consumed, Inert;
    StateOkMeans(st);
    if s == [] {
    } else if s[0] == START {
      StartedOn(s, st.stack);
      RunSound(s[2..], Parsing(st.stack + [Raw(s[1], [], [])]));
    } else if s[0] == END {
      PoppedOn(s, st.stack);
      RunSound(s[1..], Pop(st.stack));
    } else {
      var n := if s[0] == ESCAPE then 2 else 1;
      PushedOn(s, st, n);
      RunSound(s[n..], Push(st, s[..n]));
    }
  }

  lemma StartedOn(s: seq<byte>, stack: seq<Raw>)
    requires StateOk(Parsing(stack)) && |s| >= 2 && s[0] == START
    ensures var st := Parsing(stack + [Raw(s[1], [], [])]);
      StateOk(st) && Consumed(st) + s[2..] == Consumed(Parsing(stack)) + s
  {
    hide WellFormed, Encode, OpenAll, StateOk, Consumed;
    StartConsumed(stack, s[1]);
    Regroup(Consumed(Parsing(stack)), [START, s[1]], s[2..]);
    assert [START, s[1]] + s[2..] == s;
    StateOkMeans(Parsing(stack));
    StateOkMeans(Parsing(stack + [Raw(s[1], [], [])]));
  }

  lemma PoppedOn(s: seq<byte>, stack: seq<Raw>)
    requires StateOk(Parsing(stack)) && s != [] && s[0] == END
    ensures stack != [] && StateOk(Pop(stack)) && Consumed(Pop(stack)) + s[1..] == Consumed(Parsing(stack)) + s
  {
    hide WellFormed, Encode, OpenAll, StateOk, Consumed, Pop;
    StateOkMeans(Parsing(stack));
    PopConsumed(stack);
    Regroup(Consumed(Parsing(stack)), [END], s[1..]);
    assert [END] + s[1..] == s;
  }

  lemma PushedOn(s: seq<byte>, st: State, n: nat)
    requires StateOk(st) && 1 <= n <= |s| && (if n == 1 then s[0] < ESCAPE else n == 2 && s[0] == ESCAPE)
    ensures StateOk(Push(st, s[..n])) && Consumed(Push(st, s[..n])) + s[n..] == Consumed(st) + s
  {
    hide WellFormed, Encode, OpenAll, StateOk, Consumed, Push, Inert;
    EscapeInert(s[..n]);
    PushConsumed(st, s[..n]);
    Regroup(Consumed(st), s[..n], s[n..]);
    assert s[..n] + s[n..] == s;
  }

  lemma EscapeInert(s: seq<byte>)
    requires if |s| == 1 then s[0] < ESCAPE else |s| == 2 && s[0] == ESCAPE
    ensures Inert(s)
  {
    NothingInert();
    assert s[|s|..] == [];
  }

  lemma StateOkMeans(st: State)
    requires StateOk(st)
    ensures match st
      case Parsing(stack) => stack != [] && Consumed(st) == OpenAll(stack)
      case Closed(root, tail) => WellFormed(root) && Inert(tail) && Consumed(st) == Encode(root) + tail
  {
  }

  // ----- every encoding is accepted

  lemma AbsorbTwice(r: Raw, a: seq<byte>, b: seq<byte>)
    ensures Absorb(Absorb(r, a), b) == Absorb(r, a + b) && Absorb(r, []) == r
  {
    if r.kids == [] {
      assert r.props + a + b == r.props + (a + b) && r.props + [] == r.props;
    } else {
      var last := |r.kids| - 1;
      assert r.kids[last].gap + a + b == r.kids[last].gap + (a + b) && r.kids[last].gap + [] == r.kids[last].gap;
      assert Absorb(r, a).kids[..last] == r.kids[..last];
      assert r.kids == r.kids[..last] + [r.kids[last]];
    }
  }

  lemma PushTwice(st: State, a: seq<byte>, b: seq<byte>)
    requires st.Parsing? ==> st.stack != []
    ensures Push(Push(st, a), b) == Push(st, a + b) && Push(st, []) == st
  {
    match st
    case Parsing(stack) =>
      AbsorbTwice(stack[|stack| - 1], a, b);
      assert stack[..|stack| - 1] + [stack[|stack| - 1]] == stack;
      assert Push(st, a).stack[..|stack| - 1] == stack[..|stack| - 1];
    case Closed(root, tail) =>
      assert tail + a + b == tail + (a + b) && tail + [] == tail;
  }

  lemma {:induction false} RunInert(s: seq<byte>, rest: seq<byte>, st: State)
    requires Inert(s) && (st.Parsing? ==> st.stack != [])
    ensures Run(s + rest, st) == Run(rest, Push(st, s))
    decreases |s|
  {
    hide Push;
    if s == [] {
      assert s + rest == rest;
      PushTwice(st, [], []);
    } else {
      var n := if s[0] == ESCAPE then 2 else 1;
      assert (s + rest)[..n] == s[..n] && (s + rest)[n..] == s[n..] + rest && s[..n] + s[n..] == s;
      PushTwice(st, s[..n], s[n..]);
      PushNonEmpty(st, s[..n]);
      RunInert(s[n..], rest, Push(st, s[..n]));
    }
  }

  lemma PushNonEmpty(st: State, s: seq<byte>)
    requires st.Parsing? ==> st.stack != []
    ensures Push(st, s).Parsing? ==> Push(st, s).stack != []
  {
  }

  lemma PushTop(below: seq<Raw>, top: Raw, s: seq<byte>)
    ensures Push(Parsing(below + [top]), s) == Parsing(below + [Absorb(top, s)])
  {
    assert (below + [top])[..|below|] == below;
  }

  lemma EncodeShape(r: Raw, rest: seq<byte>)
    ensures var s := Encode(r) + rest;
      |s| >= 2 && s[0] == START && s[1] == r.typ && s[2..] == r.props + EncodeKids(r.kids) + ([END] + rest)
  {
    var body := r.props + EncodeKids(r.kids);
    assert Encode(r) == [START, r.typ] + body + [END];
    assert Encode(r) + rest == [START, r.typ] + (body + ([END] + rest));
  }

  /** The encoding of a node adds that node to whatever is open. */
  lemma {:induction false} RunNode(r: Raw, rest: seq<byte>, below: seq<Raw>, top: Raw)
    requires WellFormed(r)
    ensures Run(Encode(r) + rest, Parsing(below + [top])) == Run(rest, Parsing(below + [Adopt(top, r)]))
    decreases r, 1
  {
    hide Push, Adopt, WellFormed;
    var stack := below + [top];
    var s := Encode(r) + rest;
    EncodeShape(r, rest);
    RunBody(r, [END] + rest, stack);
    assert ([END] + rest)[1..] == rest;
    PopNode(below, top, r);
  }

  lemma PopNode(below: seq<Raw>, top: Raw, r: Raw)
    ensures Pop(below + [top] + [r]) == Parsing(below + [Adopt(top, r)])
  {
    var stack := below + [top] + [r];
    assert stack[..|stack| - 2] == below && stack[|stack| - 2] == top && stack[|stack| - 1] == r;
  }

  /** What stands between a node's type and its END mark fills in the node. */
  lemma {:induction false} RunBody(r: Raw, rest: seq<byte>, below: seq<Raw>)
    requires WellFormed(r)
    ensures Run(r.props + EncodeKids(r.kids) + rest, Parsing(below + [Raw(r.typ, [], [])])) == Run(rest, Parsing(below + [r]))
    decreases r, 0
  {
    var tail := EncodeKids(r.kids) + rest;
    assert r.props + EncodeKids(r.kids) + rest == r.props + tail;
    RunInert(r.props, tail, Parsing(below + [Raw(r.typ, [], [])]));
    PushTop(below, Raw(r.typ, [], []), r.props);
    assert Absorb(Raw(r.typ, [], []), r.props) == Raw(r.typ, r.props, []) by {
      assert [] + r.props == r.props;
    }
    RunKids(r.typ, r.props, r.kids, rest, below);
  }

  lemma {:induction false} RunKids(typ: byte, props: seq<byte>, kids: seq<Branch>, rest: seq<byte>, below: seq<Raw>)
    requires forall k :: 0 <= k < |kids| ==> WellFormed(kids[k].node) && Inert(kids[k].gap)
    ensures Run(EncodeKids(kids) + rest, Parsing(below + [Raw(typ, props, [])])) ==
            Run(rest, Parsing(below + [Raw(typ, props, kids)]))
    decreases kids, 2
  {
    hide Push, WellFormed, Run, Encode;
    if kids == [] {
      assert EncodeKids(kids) + rest == rest;
    } else {
      var front, last := kids[..|kids| - 1], kids[|kids| - 1];
      var tail := last.gap + rest;
      assert EncodeKids(kids) + rest == EncodeKids(front) + (Encode(last.node) + tail);
      RunKids(typ, props, front, Encode(last.node) + tail, below);
      RunNode(last.node, tail, below, Raw(typ, props, front));
      var adopted := Adopt(Raw(typ, props, front), last.node);
      RunInert(last.gap, rest, Parsing(below + [adopted]));
      PushTop(below, adopted, last.gap);
      assert Absorb(adopted, last.gap) == Raw(typ, props, kids) by {
        assert [] + last.gap == last.gap;
        assert adopted.kids[..|front|] == front && kids == front + [last];
      }
    }
  }

  /** A file is accepted exactly if after the identifier it is the encoding of one node followed by
      bytes without marks, and then that node is what is parsed. */
  lemma AcceptsExactly(data: seq<byte>, r: Raw, tail: seq<byte>)
    requires |data| >= IDENTIFIER + 2
    ensures Parse(data) == Some((r, tail)) <==>
      data[IDENTIFIER..] == Encode(r) + tail && WellFormed(r) && Inert(tail)
  {
    hide Run, WellFormed;
    var s := data[IDENTIFIER + 2..];
    var first := Raw(data[IDENTIFIER + 1], [], []);
    assert data[IDENTIFIER..] == [data[IDENTIFIER], data[IDENTIFIER + 1]] + s;
    if Parse(data) == Some((r, tail)) {
      assert WellFormed(first) by {
        FreshWellFormed(data[IDENTIFIER + 1]);
      }
      RunSound(s, Parsing([first]));
      assert OpenAll([first]) == [START, first.typ] by {
        assert Open(first) == [START, first.typ] + [] + [];
        assert [first][..0] == [];
      }
    }
    if data[IDENTIFIER..] == Encode(r) + tail && WellFormed(r) && Inert(tail) {
      var all := Encode(r) + tail;
      EncodeShape(r, tail);
      assert s == all[2..];
      RunBody(r, [END] + tail, []);
      assert [] + [Raw(r.typ, [], [])] == [first] && [] + [r] == [r];
      ClosingRun(r, tail);
    }
  }

  lemma FreshWellFormed(typ: byte)
    ensures WellFormed(Raw(typ, [], []))
  {
  }

  lemma ClosingRun(r: Raw, tail: seq<byte>)
    requires Inert(tail)
    ensures Run([END] + tail, Parsing([r])) == Some((r, tail))
  {
    assert ([END] + tail)[1..] == tail;
    RunInert(tail, [], Closed(r, []));
    assert tail + [] == tail && [] + tail == tail;
  }

  // ----- escaping

  /** The filter of `getProps`: an escape mark is dropped, the byte after it is not. */
  function Unescape(s: seq<byte>, lastEscaped: bool): seq<byte> {
    if s == [] then []
    else
      var escaped := s[0] == ESCAPE && !lastEscaped;
      (if escaped then [] else [s[0]]) + Unescape(s[1..], escaped)
  }

  function Escape(p: seq<byte>): seq<byte> {
    if p == [] then []
    else (if p[0] == ESCAPE || p[0] == START || p[0] == END then [ESCAPE, p[0]] else [p[0]]) + Escape(p[1..])
  }

  lemma {:induction false} EscapeBack(p: seq<byte>)
    ensures Inert(Escape(p)) && Unescape(Escape(p), false) == p
  {
    if p != [] {
      EscapeBack(p[1..]);
      var s, rest := Escape(p), Escape(p[1..]);
      if p[0] == ESCAPE || p[0] == START || p[0] == END {
        assert s[1..] == [p[0]] + rest && s[1..][1..] == rest && s[2..] == rest;
      } else {
        assert s[1..] == rest;
      }
    }
  }

  lemma {:induction false} UnescapeConcat(a: seq<byte>, b: seq<byte>, last: bool)
    requires b != []
    ensures Unescape(a + b, last) == Unescape(a, last) + Unescape(b, EndsEscaped(a, last))
  {
    if a == [] {
      assert a + b == b;
    } else {
      assert (a + b)[1..] == a[1..] + b;
      UnescapeConcat(a[1..], b, a[0] == ESCAPE && !last);
    }
  }

  /** The value of the filter's flag after some bytes. */
  function EndsEscaped(s: seq<byte>, last: bool): bool {
    if s == [] then last else EndsEscaped(s[1..], s[0] == ESCAPE && !last)
  }

  lemma {:induction false} EndsEscapedLast(s: seq<byte>, b: byte, last: bool)
    ensures EndsEscaped(s + [b], last) == (b == ESCAPE && !EndsEscaped(s, last))
  {
    if s == [] {
      assert s + [b] == [b] && [b][1..] == [];
    } else {
      assert (s + [b])[1..] == s[1..] + [b];
      EndsEscapedLast(s[1..], b, s[0] == ESCAPE && !last);
    }
  }

  /** A document: what someone who writes or reads an OTB file means by it. */
  datatype Doc = Doc(typ: byte, props: seq<byte>, kids: seq<Doc>)

  function Written(d: Doc): (r: Raw)
    ensures |r.kids| == |d.kids|
    decreases d
  {
    Raw(d.typ, Escape(d.props), seq(|d.kids|, k requires 0 <= k < |d.kids| => Branch(Written(d.kids[k]), [])))
  }

  function View(r: Raw): Doc
    decreases r
  {
    Doc(r.typ, Unescape(r.props, false), seq(|r.kids|, k requires 0 <= k < |r.kids| => View(r.kids[k].node)))
  }

  lemma {:induction false} WrittenBack(d: Doc)
    ensures WellFormed(Written(d)) && View(Written(d)) == d
    decreases d
  {
    EscapeBack(d.props);
    forall k | 0 <= k < |d.kids|
      ensures WellFormed(Written(d).kids[k].node) && View(Written(d).kids[k].node) == d.kids[k]
    {
      WrittenBack(d.kids[k]);
    }
    assert View(Written(d)).kids == d.kids;
  }

  /** Parsing inverts writing, for every document. */
  lemma ParseInvertsWrite(identifier: seq<byte>, d: Doc)
    requires |identifier| == IDENTIFIER
    ensures var data := identifier + Encode(Written(d));
      |data| >= IDENTIFIER + 2 && Parse(data) == Some((Written(d), [])) && View(Parse(data).value.0) == d
  {
    hide Parse, Encode;
    WrittenBack(d);
    EncodeShape(Written(d), []);
    var data := identifier + Encode(Written(d));
    assert Encode(Written(d)) + [] == Encode(Written(d));
    assert data[IDENTIFIER..] == Encode(Written(d)) + [];
    AcceptsExactly(data, Written(d), []);
  }

  // ----- opening a file

  const WILDCARD: seq<byte> := [0, 0, 0, 0]

  /** What the constructor of `Loader` demands before anything is parsed. */
  predicate Opens(data: seq<byte>, accepted: seq<byte>) {
    && |data| > IDENTIFIER + 3
    && (data[..IDENTIFIER] == accepted || data[..IDENTIFIER] == WILDCARD)
  }

  function Load(data: seq<byte>, accepted: seq<byte>): Option<(Raw, seq<byte>)> {
    if Opens(data, accepted) then Parse(data) else None
  }

  /** A written document loads, and loads as itself, exactly if its identifier is accepted and it is
      not a bare root: the size check turns away the shortest well-formed file. */
  lemma LoadsExactly(identifier: seq<byte>, accepted: seq<byte>, d: Doc)
    requires |identifier| == IDENTIFIER
    ensures var loaded := Load(identifier + Encode(Written(d)), accepted);
      if (identifier == accepted || identifier == WILDCARD) && (d.props != [] || d.kids != [])
      then loaded.Some? && loaded.value.1 == [] && View(loaded.value.0) == d
      else loaded.None?
  {
    hide Parse;
    ParseInvertsWrite(identifier, d);
    var data := identifier + Encode(Written(d));
    assert data[..IDENTIFIER] == identifier;
    var r := Written(d);
    if d.kids != [] {
      var last := r.kids[|r.kids| - 1];
      assert |Encode(last.node)| >= 3;
      assert |EncodeKids(r.kids)| >= 3;
    }
    assert d.props != [] <==> Escape(d.props) != [];
    assert |data| == IDENTIFIER + 3 + |r.props| + |EncodeKids(r.kids)|;
  }

  /** The file of a bare root is well formed, and it is turned away under any identifier. */
  lemma BareRoot(identifier: seq<byte>, accepted: seq<byte>, typ: byte)
    requires |identifier| == IDENTIFIER
    ensures |identifier + Encode(Written(Doc(typ, [], [])))| >= IDENTIFIER + 2
    ensures Parse(identifier + Encode(Written(Doc(typ, [], [])))).Some?
    ensures Load(identifier + Encode(Written(Doc(typ, [], []))), accepted).None?
  {
    hide Parse, Load;
    ParseInvertsWrite(identifier, Doc(typ, [], []));
    LoadsExactly(identifier, accepted, Doc(typ, [], []));
  }

  /** A document in bytes: 254 begins a node, 255 ends it, and 253 stands before a property byte from
      253 on. */
  lemma Marks()
    ensures Encode(Written(Doc(7, [254, 5, 253, 255], [Doc(8, [], []), Doc(9, [1], [])]))) ==
      [254, 7, 253, 254, 5, 253, 253, 253, 255, 254, 8, 255, 254, 9, 1, 255, 255]
  {
    hide Escape, EncodeKids;
    EscapedMarks();
    WrittenKids();
    var a, b := Raw(8, [], []), Raw(9, [1], []);
    var kids := [Branch(a, []), Branch(b, [])];
    assert Written(Doc(7, [254, 5, 253, 255], [Doc(8, [], []), Doc(9, [1], [])])) == Raw(7, [253, 254, 5, 253, 253, 253, 255], kids);
    OpenBytes(7, [253, 254, 5, 253, 253, 253, 255], kids);
  }

  lemma OpenBytes(typ: byte, props: seq<byte>, kids: seq<Branch>)
    ensures Encode(Raw(typ, props, kids)) == [254, typ] + props + EncodeKids(kids) + [255]
  {
  }

  lemma EscapedMarks()
    ensures Escape([254, 5, 253, 255]) == [253, 254, 5, 253, 253, 253, 255] && Escape([1]) == [1] && Escape([]) == []
  {
    assert [254, 5, 253, 255][1..] == [5, 253, 255] && [5, 253, 255][1..] == [253, 255] && [253, 255][1..] == [255];
    assert [255][1..] == [] && [1][1..] == [];
    assert Escape([255]) == [253, 255] && Escape([253, 255]) == [253, 253] + Escape([255]);
    assert Escape([5, 253, 255]) == [5] + Escape([253, 255]);
  }

  lemma WrittenKids()
    ensures Written(Doc(8, [], [])) == Raw(8, [], []) && Written(Doc(9, [1], [])) == Raw(9, [1], [])
    ensures EncodeKids([Branch(Raw(8, [], []), []), Branch(Raw(9, [1], []), [])]) == [254, 8, 255, 254, 9, 1, 255]
  {
    hide Escape;
    EscapedMarks();
    var a, b := Raw(8, [], []), Raw(9, [1], []);
    OpenBytes(8, [], []);
    OpenBytes(9, [1], []);
    var kids := [Branch(a, []), Branch(b, [])];
    assert kids[..1] == [Branch(a, [])] && [Branch(a, [])][..0] == [];
    assert EncodeKids([Branch(a, [])]) == [] + Encode(a) + [];
    assert EncodeKids(kids) == EncodeKids(kids[..1]) + Encode(b) + [];
  }

  // ----- the parser on nodes

  class Node {
    var typ: byte
    var propsBegin: nat
    var propsEnd: nat
    var children: seq<Node>

    constructor (typ: byte, propsBegin: nat)
      ensures this.typ == typ && this.propsBegin == propsBegin && children == []
    {
      this.typ, this.propsBegin, propsEnd, children := typ, propsBegin, 0, [];
    }
  }

  /** `getProps`: the unescaped property bytes; false if there are none. */
  method GetProps(data: seq<byte>, node: Node) returns (found: bool, propBuffer: seq<byte>)
    requires node.propsBegin <= node.propsEnd <= |data|
    ensures found <==> node.propsBegin < node.propsEnd
    ensures propBuffer == Unescape(data[node.propsBegin..node.propsEnd], false)
  {
    var bytes := data[node.propsBegin..node.propsEnd];
    propBuffer := [];
    if bytes == [] {
      return false, [];
    }
    var lastEscaped := false;
    for i := 0 to |bytes|
      invariant propBuffer == Unescape(bytes[..i], false) && lastEscaped == EndsEscaped(bytes[..i], false)
    {
      assert bytes[..i + 1] == bytes[..i] + [bytes[i]];
      UnescapeConcat(bytes[..i], [bytes[i]], false);
      EndsEscapedLast(bytes[..i], bytes[i], false);
      lastEscaped := bytes[i] == ESCAPE && !lastEscaped;
      if !lastEscaped {
        propBuffer := propBuffer + [bytes[i]];
      }
    }
    assert bytes[..|bytes|] == bytes;
    found := true;
  }

  /** Node `n` and the nodes below it stand for the raw nodes that `closed` maps them to. */
  ghost predicate Faithful(data: seq<byte>, closed: map<Node, Raw>)
    reads closed.Keys
  {
    forall n {:trigger closed[n]} :: n in closed ==> Stands(data, n, closed[n], closed)
  }

  ghost predicate Stands(data: seq<byte>, n: Node, raw: Raw, closed: map<Node, Raw>)
    reads n
  {
    && n.typ == raw.typ && n.propsBegin <= n.propsEnd <= |data|
    && data[n.propsBegin..n.propsEnd] == raw.props
    && Matches(n.children, raw.kids, closed)
  }

  ghost predicate Matches(children: seq<Node>, kids: seq<Branch>, closed: map<Node, Raw>) {
    && |children| == |kids|
    && forall k :: 0 <= k < |children| ==> children[k] in closed && closed[children[k]] == kids[k].node
  }

  /** The open node at level `j`: its closed children, then the open one, if there is one. */
  ghost predicate OpenAt(data: seq<byte>, it: nat, nodes: seq<Node>, stack: seq<Raw>, closed: map<Node, Raw>, j: nat)
    requires j < |nodes| == |stack|
    reads nodes
  {
    var n, raw, kids := nodes[j], stack[j], |stack[j].kids|;
    && n !in closed && n.typ == raw.typ && n.propsBegin <= it <= |data|
    && |n.children| == kids + (if j + 1 < |nodes| then 1 else 0)
    && Matches(n.children[..kids], raw.kids, closed)
    && (j + 1 < |nodes| ==> n.children[kids] == nodes[j + 1])
    && (if n.children == [] then data[n.propsBegin..it] == raw.props
        else n.propsBegin <= n.propsEnd <= it && data[n.propsBegin..n.propsEnd] == raw.props)
  }

  /** The pointer stack is the chain of last children from the root. */
  ghost predicate Chain(data: seq<byte>, it: nat, nodes: seq<Node>, stack: seq<Raw>, closed: map<Node, Raw>)
    reads nodes
  {
    && |nodes| == |stack| && (forall j, k :: 0 <= j < k < |nodes| ==> nodes[j] != nodes[k])
    && forall j :: 0 <= j < |nodes| ==> OpenAt(data, it, nodes, stack, closed, j)
  }

  lemma ChainAbsorb(data: seq<byte>, it: nat, n: nat, nodes: seq<Node>, stack: seq<Raw>, closed: map<Node, Raw>)
    requires nodes != [] && it + n <= |data|
    requires Chain(data, it, nodes, stack, closed)
    ensures Chain(data, it + n, nodes, Push(Parsing(stack), data[it..it + n]).stack, closed)
  {
    var after, now := Push(Parsing(stack), data[it..it + n]).stack, it + n;
    forall j | 0 <= j < |nodes|
      ensures OpenAt(data, now, nodes, after, closed, j)
    {
      assert OpenAt(data, it, nodes, stack, closed, j);
      var node := nodes[j];
      if j + 1 == |nodes| && node.children == [] {
        assert data[node.propsBegin..it + n] == data[node.propsBegin..it] + data[it..it + n];
      }
    }
  }

  /** The branch for a START mark. */
  method OpenChild(data: seq<byte>, it: nat, parseStack: seq<Node>, ghost stack: seq<Raw>, ghost closed: map<Node, Raw>)
    returns (child: Node)
    requires parseStack != [] && it + 2 <= |data|
    requires Chain(data, it, parseStack, stack, closed) && Faithful(data, closed)
    modifies parseStack[|parseStack| - 1]
    ensures fresh(child)
    ensures Chain(data, it + 2, parseStack + [child], stack + [Raw(data[it + 1], [], [])], closed) && Faithful(data, closed)
  {
    var last := |parseStack| - 1;
    var currentNode := parseStack[last];
    assert OpenAt(data, it, parseStack, stack, closed, last);
    ghost var kids, now := currentNode.children, it + 2;
    if currentNode.children == [] {
      currentNode.propsEnd := it;
    }
    child := new Node(data[it + 1], it + 2);
    currentNode.children := currentNode.children + [child];
    ghost var nodes, after := parseStack + [child], stack + [Raw(data[it + 1], [], [])];
    assert currentNode.children[..|kids|] == kids;
    forall j | 0 <= j < |nodes|
      ensures OpenAt(data, now, nodes, after, closed, j)
    {
      if j <= last {
        assert old(OpenAt(data, it, parseStack, stack, closed, j));
        assert nodes[j] == parseStack[j];
      }
    }
  }

  /** The branch for an END mark. */
  method CloseNode(data: seq<byte>, it: nat, parseStack: seq<Node>, ghost stack: seq<Raw>, ghost closed: map<Node, Raw>)
    returns (ghost now: map<Node, Raw>)
    requires parseStack != [] && it < |data|
    requires Chain(data, it, parseStack, stack, closed) && Faithful(data, closed)
    modifies parseStack[|parseStack| - 1]
    ensures now == closed[parseStack[|parseStack| - 1] := stack[|stack| - 1]] && Faithful(data, now)
    ensures |parseStack| > 1 ==> Chain(data, it + 1, parseStack[..|parseStack| - 1], Pop(stack).stack, now)
  {
    var last := |parseStack| - 1;
    var currentNode := parseStack[last];
    assert OpenAt(data, it, parseStack, stack, closed, last);
    assert currentNode.children[..|stack[last].kids|] == currentNode.children;
    if currentNode.children == [] {
      currentNode.propsEnd := it;
    }
    now := closed[currentNode := stack[last]];
    forall n | n in now
      ensures Stands(data, n, now[n], now)
    {
      assert n in closed ==> old(Stands(data, n, closed[n], closed));
    }
    if last > 0 {
      ghost var nodes, after, here := parseStack[..last], Pop(stack).stack, it + 1;
      forall j | 0 <= j < |nodes|
        ensures OpenAt(data, here, nodes, after, now, j)
      {
        assert old(OpenAt(data, it, parseStack, stack, closed, j));
        assert nodes[j] == parseStack[j];
        if j == last - 1 {
          assert nodes[j].children[..|after[j].kids|] == nodes[j].children;
        }
      }
    }
  }

  lemma FirstNode(data: seq<byte>, first: Node)
    requires |data| >= IDENTIFIER + 2 && first.children == []
    requires first.typ == data[IDENTIFIER + 1] && first.propsBegin == IDENTIFIER + 2
    ensures Chain(data, IDENTIFIER + 2, [first], [Raw(data[IDENTIFIER + 1], [], [])], map[]) && Faithful(data, map[])
  {
  }

  lemma ChainLengths(data: seq<byte>, it: nat, nodes: seq<Node>, stack: seq<Raw>, closed: map<Node, Raw>)
    requires Chain(data, it, nodes, stack, closed)
    ensures |nodes| == |stack|
  {
  }

  lemma PopKind(stack: seq<Raw>)
    requires stack != []
    ensures if |stack| == 1 then Pop(stack) == Closed(stack[0], []) else Pop(stack).Parsing? && |Pop(stack).stack| == |stack| - 1
  {
  }

  lemma PushKind(st: State, s: seq<byte>)
    requires st.Parsing? ==> st.stack != []
    ensures match st
      case Parsing(stack) => Push(st, s).Parsing? && |Push(st, s).stack| == |stack|
      case Closed(root, tail) => Push(st, s) == Closed(root, tail + s)
  {
  }

  lemma RunStep(s: seq<byte>, st: State)
    requires s != [] && (st.Parsing? ==> st.stack != [])
    ensures s[0] == START && (st.Closed? || |s| < 2) ==> Run(s, st).None?
    ensures s[0] == START && st.Parsing? && |s| >= 2 ==> Run(s, st) == Run(s[2..], Parsing(st.stack + [Raw(s[1], [], [])]))
    ensures s[0] == END ==> Run(s, st) == if st.Closed? then None else Run(s[1..], Pop(st.stack))
    ensures s[0] == ESCAPE && |s| < 2 ==> Run(s, st).None?
    ensures s[0] == ESCAPE && |s| >= 2 ==> Run(s, st) == Run(s[2..], Push(st, s[..2]))
    ensures s[0] < ESCAPE ==> Run(s, st) == Run(s[1..], Push(st, s[..1]))
  {
  }

  lemma RunEnd(st: State)
    requires st.Parsing? ==> st.stack != []
    ensures Run([], st) == if st.Closed? then Some((st.root, st.tail)) else None
  {
  }

  /** `parseTree`: null where the source throws. */
  method ParseTree(data: seq<byte>) returns (root: Node?, ghost closed: map<Node, Raw>)
    requires |data| >= IDENTIFIER + 2
    ensures root != null <==> Parse(data).Some?
    ensures root != null ==> root in closed && closed[root] == Parse(data).value.0
    ensures root != null ==> Faithful(data, closed) && fresh(closed.Keys)
  {
    hide Run, Push, Pop, Chain, Faithful;
    closed := map[];
    if data[IDENTIFIER] != START {
      return null, closed;
    }
    var it := IDENTIFIER + 2;
    var first := new Node(data[IDENTIFIER + 1], it);
    var parseStack := [first];
    ghost var st := Parsing([Raw(data[IDENTIFIER + 1], [], [])]);
    FirstNode(data, first);
    while it < |data|
      invariant IDENTIFIER + 2 <= it <= |data| && (st.Parsing? ==> st.stack != [])
      invariant Parse(data) == Run(data[it..], st)
      invariant st.Closed? <==> parseStack == []
      invariant st.Parsing? ==> parseStack[0] == first && Chain(data, it, parseStack, st.stack, closed)
      invariant st.Closed? ==> first in closed && closed[first] == st.root
      invariant Faithful(data, closed) && fresh(closed.Keys) && forall j :: 0 <= j < |parseStack| ==> fresh(parseStack[j])
    {
      ghost var s := data[it..];
      RunStep(s, st);
      if data[it] == START {
        if parseStack == [] || it + 1 == |data| {
          return null, closed;
        }
        var child := OpenChild(data, it, parseStack, st.stack, closed);
        parseStack := parseStack + [child];
        st := Parsing(st.stack + [Raw(data[it + 1], [], [])]);
        it := it + 1;
        assert s[2..] == data[it + 1..];
      } else if data[it] == END {
        if parseStack == [] {
          return null, closed;
        }
        ChainLengths(data, it, parseStack, st.stack, closed);
        closed := CloseNode(data, it, parseStack, st.stack, closed);
        parseStack := parseStack[..|parseStack| - 1];
        PopKind(st.stack);
        st := Pop(st.stack);
        assert s[1..] == data[it + 1..];
      } else {
        if data[it] == ESCAPE {
          it := it + 1;
          if it == |data| {
            return null, closed;
          }
        }
        ghost var n := |s| - |data[it + 1..]|;
        assert s[n..] == data[it + 1..] && s[..n] == data[it + 1 - n..it + 1];
        if parseStack != [] {
          ChainAbsorb(data, it + 1 - n, n, parseStack, st.stack, closed);
        }
        PushKind(st, s[..n]);
        st := Push(st, s[..n]);
      }
      it := it + 1;
    }
    RunEnd(st);
    assert data[it..] == [];
    if parseStack != [] {
      return null, closed;
    }
    root := first;
  }
}
