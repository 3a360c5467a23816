/** The loader of OTB files (src/fileloader.cpp `Loader::parseTree`, `Loader::getProps`).

  A file is a four byte identifier and a tree of nodes.  A node is START, a type byte, its properties
  with START, END and ESCAPE bytes escaped, its children, and END.  The parser is one loop with an
  explicit stack; `Body` is the same language as a recursive grammar, and `ParseTree` is proved to
  build the tree of the grammar on every input, accepted or not. */
module OtbLoader {
  import opened Wrappers
  import opened PropStreams

  const ESCAPE: byte := 0xFD
  const START: byte := 0xFE
  const END: byte := 0xFF

  const IDENTIFIER_SIZE := 4
  const MINIMAL_SIZE := 7

  const WILDCARD: bytes := [0, 0, 0, 0]

  /** A parsed node: type, the range of its properties, children. */
  datatype Parsed = Parsed(kind: byte, begin: nat, end: nat, kids: seq<Parsed>)

  /** A node that is still open; `end` is known once its first child starts. */
  datatype Frame = Frame(kind: byte, begin: nat, end: Option<nat>, kids: seq<Parsed>)

  function Open(kind: byte, begin: nat): Frame {
    Frame(kind, begin, None, [])
  }

  /** A START or END byte at `i` ends the properties of a node without children. */
  function Ended(f: Frame, i: nat): Frame {
    if f.kids == [] then f.(end := Some(i)) else f
  }

  function WithChild(f: Frame, t: Parsed): Frame {
    f.(kids := f.kids + [t])
  }

  ghost predicate Proper(f: Frame) {
    f.kids != [] ==> f.end.Some?
  }

  function Closed(f: Frame, i: nat): Parsed {
    Parsed(f.kind, f.begin, match Ended(f, i).end case Some(e) => e case None => i, f.kids)
  }

  /** The grammar: the rest of an open node from position `i`, with the position behind it. */
  function Body(b: bytes, i: nat, f: Frame): (r: Option<(Parsed, nat)>)
    ensures r.Some? ==> i < r.value.1 <= |b|
    decreases |b| - i
  {
    if i >= |b| then None
    else if b[i] == START then
      if i + 1 >= |b| then None
      else
        match Body(b, i + 2, Open(b[i + 1], i + 2))
        case None => None
        case Some((child, j)) => Body(b, j, WithChild(Ended(f, i), child))
    else if b[i] == END then Some((Closed(f, i), i + 1))
    else if b[i] == ESCAPE then
      if i + 1 >= |b| then None else Body(b, i + 2, f)
    else Body(b, i + 1, f)
  }

  /** What may follow the root: anything without an unescaped START or END. */
  predicate Trailing(b: bytes, i: nat)
    decreases |b| - i
  {
    if i >= |b| then true
    else if b[i] == START || b[i] == END then false
    else if b[i] == ESCAPE then i + 1 < |b| && Trailing(b, i + 2)
    else Trailing(b, i + 1)
  }

  /** The outcome for open nodes `fs`, innermost last, from position `i`. */
  function Resumed(b: bytes, i: nat, fs: seq<Frame>): Option<Parsed>
    requires fs != []
    decreases |fs|
  {
    match Body(b, i, fs[|fs| - 1])
    case None => None
    case Some((t, j)) =>
      if |fs| == 1 then (if Trailing(b, j) then Some(t) else None)
      else Resumed(b, j, fs[..|fs| - 2] + [WithChild(fs[|fs| - 2], t)])
  }

  /** The tree of a whole file, or nothing when it is malformed. */
  function Tree(b: bytes): Option<Parsed>
    requires |b| > MINIMAL_SIZE
  {
    if b[IDENTIFIER_SIZE] != START then None
    else
      match Body(b, IDENTIFIER_SIZE + 2, Open(b[IDENTIFIER_SIZE + 1], IDENTIFIER_SIZE + 2))
      case None => None
      case Some((t, j)) => if Trailing(b, j) then Some(t) else None
  }

  // ---- the parser -------------------------------------------------------------------------------

  class Node {
    var children: seq<Node>
    var propsBegin: nat
    var propsEnd: Option<nat>
    var kind: byte

    constructor ()
      ensures children == [] && propsEnd == None
    {
      children, propsBegin, propsEnd, kind := [], 0, None, 0;
    }
  }

  /** The closed node `x` and everything below it, all in `S`, is the tree `t`. */
  ghost predicate Represents(x: Node, t: Parsed, S: set<Node>)
    reads S
    decreases t
  {
    && x in S && x.kind == t.kind && x.propsBegin == t.begin && x.propsEnd == Some(t.end)
    && AllRepresent(x.children, t.kids, S)
  }

  ghost predicate AllRepresent(xs: seq<Node>, ts: seq<Parsed>, S: set<Node>)
    reads S
    decreases ts
  {
    |xs| == |ts| && forall i :: 0 <= i < |xs| ==> Represents(xs[i], ts[i], S)
  }

  lemma {:induction false} RepresentsMore(x: Node, t: Parsed, S: set<Node>, T: set<Node>)
    requires S <= T && Represents(x, t, S)
    ensures Represents(x, t, T)
    decreases t
  {
    AllRepresentMore(x.children, t.kids, S, T);
  }

  lemma {:induction false} AllRepresentMore(xs: seq<Node>, ts: seq<Parsed>, S: set<Node>, T: set<Node>)
    requires S <= T && AllRepresent(xs, ts, S)
    ensures AllRepresent(xs, ts, T)
    decreases ts
  {
    forall i | 0 <= i < |xs|
      ensures Represents(xs[i], ts[i], T)
    {
      RepresentsMore(xs[i], ts[i], S, T);
    }
  }

  /** The open node `x` is the frame `f`; its closed children, all but `open`, lie in `S`. */
  ghost predicate IsFrame(x: Node, open: seq<Node>, f: Frame, S: set<Node>)
    reads x, S
  {
    && x.kind == f.kind && x.propsBegin == f.begin && x.propsEnd == f.end && Proper(f)
    && (open != [] ==> f.end.Some?)
    && |open| <= |x.children| && x.children[|x.children| - |open|..] == open
    && AllRepresent(x.children[..|x.children| - |open|], f.kids, S)
  }

  /** An open node below the top of the stack: the next one is its last child. */
  ghost predicate Level(x: Node, next: Node, f: Frame, S: set<Node>)
    reads x, S
  {
    IsFrame(x, [next], f, S)
  }

  ghost predicate Distinct(stack: seq<Node>, S: set<Node>) {
    && (forall k, m :: 0 <= k < m < |stack| ==> stack[k] != stack[m])
    && (forall k :: 0 <= k < |stack| ==> stack[k] !in S)
  }

  /** The open nodes of the stack are the frames.  The stack is the rightmost path of the tree: each open
    node is the last child of the one below it, and only the top of the stack gets children, so no open
    node is ever moved. */
  ghost predicate Opens(stack: seq<Node>, fs: seq<Frame>, S: set<Node>)
    reads stack, S
  {
    && |stack| == |fs| && Distinct(stack, S)
    && (forall k :: 0 <= k < |stack| - 1 ==> Level(stack[k], stack[k + 1], fs[k], S))
    && (stack != [] ==> IsFrame(stack[|stack| - 1], [], fs[|stack| - 1], S))
  }

  /** A START byte: the current node gets a child, which becomes the top of the stack. */
  method StartChild(b: bytes, it: nat, stack: seq<Node>, ghost fs: seq<Frame>, ghost S: set<Node>)
    returns (grown: seq<Node>, ghost gs: seq<Frame>)
    requires it + 1 < |b| && stack != [] && Opens(stack, fs, S)
    modifies stack[|stack| - 1]
    ensures gs == fs[..|fs| - 1] + [Ended(fs[|fs| - 1], it), Open(b[it + 1], it + 2)]
    ensures |grown| == |stack| + 1 && grown[..|stack|] == stack && fresh(grown[|stack|]) && Opens(grown, gs, S)
  {
    hide AllRepresent, Level;
    var n := |stack|;
    var child := AddChild(stack[n - 1], b[it + 1], it, fs[n - 1], S);
    grown := stack + [child];
    gs := fs[..n - 1] + [Ended(fs[n - 1], it), Open(b[it + 1], it + 2)];
    hide IsFrame, Ended, Open;
    forall k | 0 <= k < n
      ensures Level(grown[k], grown[k + 1], gs[k], S)
    {
      if k < n - 1 {
        assert Level(stack[k], stack[k + 1], fs[k], S);
      }
    }
  }

  /** The new last child of the current node. */
  method AddChild(current: Node, kind: byte, it: nat, ghost f: Frame, ghost S: set<Node>) returns (child: Node)
    requires IsFrame(current, [], f, S) && current !in S
    modifies current
    ensures fresh(child) && Level(current, child, Ended(f, it), S) && IsFrame(child, [], Open(kind, it + 2), S)
  {
    assert current.children[..|current.children|] == current.children;
    assert AllRepresent(current.children, f.kids, S);
    assert current.children == [] <==> f.kids == [];
    assert AllRepresent([], [], S);
    ghost var kids := current.children;
    if current.children == [] {
      current.propsEnd := Some(it);
    }
    child := new Node();
    current.children := current.children + [child];
    child.kind := kind;
    child.propsBegin := it + 2;
    hide AllRepresent;
    assert current.children[..|current.children| - 1] == kids;
    assert child.children[..|child.children|] == [] && child.children[|child.children|..] == [];
  }

  /** An END byte: the current node is closed and leaves the stack. */
  method EndNode(it: nat, stack: seq<Node>, ghost fs: seq<Frame>, ghost S: set<Node>)
    returns (shrunk: seq<Node>, ghost gs: seq<Frame>, ghost T: set<Node>)
    requires stack != [] && Opens(stack, fs, S)
    modifies stack[|stack| - 1]
    ensures var n, t := |stack|, Closed(fs[|fs| - 1], it);
      && shrunk == stack[..n - 1] && T == S + {stack[n - 1]} && Represents(stack[n - 1], t, T)
      && gs == (if n == 1 then [] else fs[..n - 2] + [WithChild(fs[n - 2], t)])
      && Opens(shrunk, gs, T)
  {
    hide AllRepresent, Level, Represents, Closed;
    var n := |stack|;
    var current := stack[n - 1];
    ghost var t := Closed(fs[n - 1], it);
    T := S + {current};
    Close(current, it, fs[n - 1], S);
    hide IsFrame;
    shrunk := stack[..n - 1];
    gs := if n == 1 then [] else fs[..n - 2] + [WithChild(fs[n - 2], t)];
    forall k | 0 <= k < n - 2
      ensures Level(shrunk[k], shrunk[k + 1], gs[k], T)
    {
      assert Level(stack[k], stack[k + 1], fs[k], S);
      LevelMore(stack[k], stack[k + 1], fs[k], S, T);
    }
    if n > 1 {
      assert Level(stack[n - 2], stack[n - 1], fs[n - 2], S);
      ChildClosed(stack[n - 2], current, fs[n - 2], t, S, T);
    }
  }

  method Close(current: Node, it: nat, ghost f: Frame, ghost S: set<Node>)
    requires IsFrame(current, [], f, S) && current !in S
    modifies current
    ensures Represents(current, Closed(f, it), S + {current})
  {
    assert current.children[..|current.children|] == current.children;
    assert AllRepresent(current.children, f.kids, S);
    if current.children == [] {
      current.propsEnd := Some(it);
    }
    AllRepresentMore(current.children, f.kids, S, S + {current});
  }

  lemma {:induction false} LevelMore(x: Node, next: Node, f: Frame, S: set<Node>, T: set<Node>)
    requires S <= T && Level(x, next, f, S)
    ensures Level(x, next, f, T)
  {
    AllRepresentMore(x.children[..|x.children| - 1], f.kids, S, T);
  }

  /** Once its last child is closed, the node below becomes the top of the stack. */
  lemma {:induction false} ChildClosed(x: Node, child: Node, f: Frame, t: Parsed, S: set<Node>, T: set<Node>)
    requires S <= T && Level(x, child, f, S) && Represents(child, t, T)
    ensures IsFrame(x, [], WithChild(f, t), T)
  {
    var kids := x.children[..|x.children| - 1];
    AllRepresentMore(kids, f.kids, S, T);
    hide Represents;
    assert x.children == kids + [child];
    assert x.children[..|x.children|] == x.children && x.children[|x.children|..] == [];
  }

  // ---- the grammar, one byte at a time ----------------------------------------------------------

  lemma {:induction false} ResumedSkip(b: bytes, i: nat, fs: seq<Frame>)
    requires fs != [] && i < |b| && b[i] != START && b[i] != END
    ensures b[i] != ESCAPE ==> Resumed(b, i, fs) == Resumed(b, i + 1, fs)
    ensures b[i] == ESCAPE ==> Resumed(b, i, fs) == if i + 1 < |b| then Resumed(b, i + 2, fs) else None
  {
  }

  lemma {:induction false} ResumedStart(b: bytes, i: nat, fs: seq<Frame>)
    requires fs != [] && i < |b| && b[i] == START
    ensures Resumed(b, i, fs) ==
      if i + 1 < |b| then Resumed(b, i + 2, fs[..|fs| - 1] + [Ended(fs[|fs| - 1], i), Open(b[i + 1], i + 2)]) else None
  {
    if i + 1 < |b| {
      var f, c := Ended(fs[|fs| - 1], i), Open(b[i + 1], i + 2);
      var gs := fs[..|fs| - 1] + [f, c];
      if Body(b, i + 2, c).Some? {
        var (t, j) := Body(b, i + 2, c).value;
        var hs := fs[..|fs| - 1] + [WithChild(f, t)];
        assert gs[..|gs| - 2] == fs[..|fs| - 1];
        assert Resumed(b, i + 2, gs) == Resumed(b, j, hs);
        if |fs| > 1 { assert hs[..|hs| - 2] == fs[..|fs| - 2]; }
      }
    }
  }

  lemma {:induction false} ResumedEnd(b: bytes, i: nat, fs: seq<Frame>)
    requires fs != [] && i < |b| && b[i] == END
    ensures var t := Closed(fs[|fs| - 1], i);
      Resumed(b, i, fs) ==
        if |fs| > 1 then Resumed(b, i + 1, fs[..|fs| - 2] + [WithChild(fs[|fs| - 2], t)])
        else if Trailing(b, i + 1) then Some(t) else None
  {
  }

  /** The part of the loop of `Loader::parseTree` that is still to run: with nodes open, or behind the root. */
  ghost predicate Underway(b: bytes, it: nat, root: Node, stack: seq<Node>, fs: seq<Frame>, S: set<Node>, t: Parsed)
    requires |b| > MINIMAL_SIZE
    reads stack, S
  {
    && Opens(stack, fs, S)
    && (stack != [] ==> stack[0] == root && Tree(b) == Resumed(b, it, fs))
    && (stack == [] ==> Represents(root, t, S) && Tree(b) == if Trailing(b, it) then Some(t) else None)
  }

  lemma {:induction false} NotATree(b: bytes)
    requires |b| > MINIMAL_SIZE
    ensures b[IDENTIFIER_SIZE] != START ==> Tree(b) == None
  {
  }

  lemma {:induction false} UnderwayBegins(b: bytes, root: Node, t: Parsed)
    requires |b| > MINIMAL_SIZE && b[IDENTIFIER_SIZE] == START && root.children == [] && root.propsEnd == None
    requires root.kind == b[IDENTIFIER_SIZE + 1] && root.propsBegin == IDENTIFIER_SIZE + 2
    ensures Underway(b, IDENTIFIER_SIZE + 2, root, [root], [Open(root.kind, root.propsBegin)], {}, t)
  {
    hide Body, Represents;
    OpenRoot(root);
    hide IsFrame, Open;
  }

  lemma {:induction false} OpenRoot(root: Node)
    requires root.children == [] && root.propsEnd == None
    ensures IsFrame(root, [], Open(root.kind, root.propsBegin), {})
  {
    assert root.children[..0] == [] && root.children[0..] == [];
  }

  lemma {:induction false} UnderwaySkip(b: bytes, it: nat, root: Node, stack: seq<Node>, fs: seq<Frame>, S: set<Node>,
                                        t: Parsed)
    requires |b| > MINIMAL_SIZE && it < |b| && Underway(b, it, root, stack, fs, S, t) && b[it] != START && b[it] != END
    ensures b[it] != ESCAPE ==> Underway(b, it + 1, root, stack, fs, S, t)
    ensures b[it] == ESCAPE && it + 1 < |b| ==> Underway(b, it + 2, root, stack, fs, S, t)
    ensures b[it] == ESCAPE && it + 1 == |b| ==> Tree(b) == None
  {
    hide IsFrame, Level, Distinct, Represents, Tree;
    if stack != [] { ResumedSkip(b, it, fs); }
  }

  lemma {:induction false} UnderwayNone(b: bytes, it: nat, root: Node, stack: seq<Node>, fs: seq<Frame>, S: set<Node>,
                                        t: Parsed)
    requires |b| > MINIMAL_SIZE && it <= |b| && Underway(b, it, root, stack, fs, S, t)
    ensures it < |b| && (b[it] == START || b[it] == END) && stack == [] ==> Tree(b) == None
    ensures it < |b| && b[it] == START && it + 1 == |b| ==> Tree(b) == None
    ensures it == |b| ==> Tree(b) == if stack == [] then Some(t) else None
    ensures stack == [] ==> Represents(root, t, S)
  {
    hide IsFrame, Level, Distinct, Represents, Tree;
    if stack != [] && it < |b| && b[it] == START { ResumedStart(b, it, fs); }
  }

  method StartStep(b: bytes, it: nat, root: Node, stack: seq<Node>, ghost fs: seq<Frame>, ghost S: set<Node>,
                   ghost t: Parsed) returns (grown: seq<Node>, ghost gs: seq<Frame>)
    requires |b| > MINIMAL_SIZE && it + 1 < |b| && Underway(b, it, root, stack, fs, S, t)
    requires b[it] == START && stack != []
    modifies stack[|stack| - 1]
    ensures |grown| == |stack| + 1 && grown[..|stack|] == stack && fresh(grown[|stack|])
    ensures Underway(b, it + 2, root, grown, gs, S, t)
  {
    hide IsFrame, Level, Distinct, Represents, Tree, Ended, Open;
    ResumedStart(b, it, fs);
    grown, gs := StartChild(b, it, stack, fs, S);
    hide Resumed, Opens;
    assert grown[0] == stack[0];
  }

  method EndStep(b: bytes, it: nat, root: Node, stack: seq<Node>, ghost fs: seq<Frame>, ghost S: set<Node>,
                 ghost last: Parsed)
    returns (shrunk: seq<Node>, ghost gs: seq<Frame>, ghost T: set<Node>, ghost t: Parsed)
    requires |b| > MINIMAL_SIZE && it < |b| && Underway(b, it, root, stack, fs, S, last)
    requires b[it] == END && stack != []
    modifies stack[|stack| - 1]
    ensures shrunk == stack[..|stack| - 1] && T == S + {stack[|stack| - 1]}
    ensures Underway(b, it + 1, root, shrunk, gs, T, t)
  {
    hide IsFrame, Level, Distinct, Represents, Tree, Closed;
    ResumedEnd(b, it, fs);
    t := Closed(fs[|fs| - 1], it);
    shrunk, gs, T := EndNode(it, stack, fs, S);
    hide Resumed, Opens;
    assert shrunk != [] ==> shrunk[0] == stack[0];
  }

  class Loader {
    const fileContents: bytes
    const root: Node
    var propBuffer: bytes

    constructor (contents: bytes)
      ensures fileContents == contents && fresh(root) && root.children == [] && root.propsEnd == None
    {
      fileContents := contents;
      root := new Node();
      propBuffer := [];
    }

    /** `Loader::parseTree`; `None` stands for the exception of a malformed file. */
    method ParseTree() returns (parsed: Option<Node>, ghost S: set<Node>)
      requires |fileContents| > MINIMAL_SIZE && root.children == [] && root.propsEnd == None
      modifies root
      ensures parsed.Some? <==> Tree(fileContents).Some?
      ensures parsed.Some? ==> parsed.value == root && fresh(S - {root}) && Represents(root, Tree(fileContents).value, S)
    {
      hide Underway, Opens, Tree, Body, Open, Represents, AllRepresent;
      var b := fileContents;
      S := {};
      var it := IDENTIFIER_SIZE;
      if b[it] != START {
        NotATree(b);
        return None, S;
      }
      it := it + 1;
      root.kind := b[it];
      it := it + 1;
      root.propsBegin := it;
      var parseStack := [root];
      ghost var fs := [Open(b[it - 1], it)];
      ghost var t := Parsed(0, 0, 0, []);
      UnderwayBegins(b, root, t);
      while it != |b|
        invariant it <= |b| && Underway(b, it, root, parseStack, fs, S, t)
        invariant fresh((set x | x in parseStack) - {root}) && fresh(S - {root})
        decreases |b| - it
      {
        UnderwayNone(b, it, root, parseStack, fs, S, t);
        if b[it] == START {
          if parseStack == [] { return None, S; }
          if it + 1 == |b| { return None, S; }
          parseStack, fs := StartStep(b, it, root, parseStack, fs, S, t);
          it := it + 1;
        } else if b[it] == END {
          if parseStack == [] { return None, S; }
          parseStack, fs, S, t := EndStep(b, it, root, parseStack, fs, S, t);
        } else {
          UnderwaySkip(b, it, root, parseStack, fs, S, t);
          if b[it] == ESCAPE {
            it := it + 1;
            if it == |b| { return None, S; }
          }
        }
        it := it + 1;
      }
      UnderwayNone(b, it, root, parseStack, fs, S, t);
      if parseStack != [] { return None, S; }
      parsed := Some(root);
    }

    /** `Loader::getProps`: the properties of a node without their escapes; false when there are none. */
    method GetProps(node: Node) returns (ok: bool, props: PropStream)
      requires node.propsEnd.Some? && node.propsBegin <= node.propsEnd.value <= |fileContents|
      modifies this
      ensures ok <==> node.propsBegin < node.propsEnd.value
      ensures fresh(props) && props.Valid()
      ensures ok ==> props.Rest() == Kept(fileContents[node.propsBegin..node.propsEnd.value], false)
    {
      var begin, end := node.propsBegin, node.propsEnd.value;
      hide Kept;
      propBuffer := [];
      var lastEscaped := false;
      for i := begin to end
        invariant Kept(fileContents[begin..end], false) == propBuffer + Kept(fileContents[i..end], lastEscaped)
      {
        KeptStep(fileContents, i, end, lastEscaped);
        lastEscaped := fileContents[i] == ESCAPE && !lastEscaped;
        if !lastEscaped {
          propBuffer := propBuffer + [fileContents[i]];
        }
      }
      NothingKept(fileContents, end, lastEscaped);
      assert propBuffer + [] == propBuffer;
      props := new PropStream(propBuffer);
      ok := begin != end;
    }
  }

  /** The constructor of `Loader`: a file that is too short or carries another identifier is refused. */
  method OpenFile(contents: bytes, accepted: bytes) returns (loader: Option<Loader>)
    requires |accepted| == IDENTIFIER_SIZE
    ensures loader.Some? <==>
      |contents| > MINIMAL_SIZE && (contents[..IDENTIFIER_SIZE] == accepted || contents[..IDENTIFIER_SIZE] == WILDCARD)
    ensures loader.Some? ==> fresh(loader.value) && loader.value.fileContents == contents
    ensures loader.Some? ==> fresh(loader.value.root) && loader.value.root.children == []
    ensures loader.Some? ==> loader.value.root.propsEnd == None
  {
    if |contents| <= MINIMAL_SIZE { return None; }
    var identifier := contents[..IDENTIFIER_SIZE];
    if identifier != accepted && identifier != WILDCARD { return None; }
    var l := new Loader(contents);
    loader := Some(l);
  }

  // ---- escaping ---------------------------------------------------------------------------------

  /** What `getProps` keeps of a range: `last` says that the byte before was an escape. */
  function Kept(s: bytes, last: bool): bytes {
    if s == [] then [] else
      var escape := s[0] == ESCAPE && !last;
      (if escape then [] else [s[0]]) + Kept(s[1..], escape)
  }

  lemma {:induction false} KeptStep(s: bytes, i: nat, end: nat, last: bool)
    requires i < end <= |s|
    ensures var escape := s[i] == ESCAPE && !last;
      Kept(s[i..end], last) == (if escape then [] else [s[i]]) + Kept(s[i + 1..end], escape)
  {
    assert s[i..end][1..] == s[i + 1..end];
  }

  lemma {:induction false} NothingKept(s: bytes, end: nat, last: bool)
    requires end <= |s|
    ensures Kept(s[end..end], last) == []
  {
  }

  /** No START or END without an escape before it, and no escape without a byte after it. */
  predicate WellEscaped(s: bytes)
    decreases |s|
  {
    if s == [] then true
    else if s[0] == ESCAPE then |s| >= 2 && WellEscaped(s[2..])
    else s[0] != START && s[0] != END && WellEscaped(s[1..])
  }

  lemma {:induction false} WellEscapedMore(s: bytes, c: byte)
    requires WellEscaped(s)
    ensures WellEscaped(s + [ESCAPE, c])
    ensures c != ESCAPE && c != START && c != END ==> WellEscaped(s + [c])
    decreases |s|
  {
    if s == [] {
      assert s + [ESCAPE, c] == [ESCAPE, c] && s + [c] == [c];
    } else {
      var k := if s[0] == ESCAPE then 2 else 1;
      WellEscapedMore(s[k..], c);
      assert (s + [ESCAPE, c])[k..] == s[k..] + [ESCAPE, c] && (s + [c])[k..] == s[k..] + [c];
    }
  }

  function Escape(p: bytes): bytes {
    if p == [] then [] else
      (if p[0] == ESCAPE || p[0] == START || p[0] == END then [ESCAPE, p[0]] else [p[0]]) + Escape(p[1..])
  }

  /** Removing the escapes of escaped properties gives the properties back. */
  lemma {:induction false} EscapeRoundTrip(p: bytes)
    ensures WellEscaped(Escape(p)) && Kept(Escape(p), false) == p
    ensures Escape(p) == [] <==> p == []
  {
    if p != [] {
      EscapeRoundTrip(p[1..]);
      var e := Escape(p);
      if p[0] == ESCAPE || p[0] == START || p[0] == END {
        assert e[1..][1..] == Escape(p[1..]) && e[2..] == Escape(p[1..]);
        assert Kept(e[1..], true) == [p[0]] + Kept(Escape(p[1..]), false);
      } else {
        assert e[1..] == Escape(p[1..]);
      }
    }
  }

  // ---- soundness --------------------------------------------------------------------------------

  ghost predicate SoundRange(b: bytes, begin: nat, end: nat) {
    begin <= end <= |b| && WellEscaped(b[begin..end])
  }

  /** Every node below and including `t` has a range of well-escaped properties. */
  ghost predicate Sound(b: bytes, t: Parsed)
    decreases t
  {
    SoundRange(b, t.begin, t.end) && forall k :: k in t.kids ==> Sound(b, k)
  }

  ghost predicate SoundFrame(b: bytes, i: nat, f: Frame) {
    && Proper(f)
    && (forall k :: k in f.kids ==> Sound(b, k))
    && SoundRange(b, f.begin, if f.kids == [] then i else f.end.value)
  }

  lemma {:induction false} RangeMore(b: bytes, begin: nat, i: nat)
    requires SoundRange(b, begin, i) && i < |b|
    ensures b[i] == ESCAPE && i + 1 < |b| ==> SoundRange(b, begin, i + 2)
    ensures b[i] != ESCAPE && b[i] != START && b[i] != END ==> SoundRange(b, begin, i + 1)
  {
    assert b[begin..i + 1] == b[begin..i] + [b[i]];
    WellEscapedMore(b[begin..i], b[i]);
    if i + 1 < |b| {
      assert b[begin..i + 2] == b[begin..i] + [b[i], b[i + 1]];
      WellEscapedMore(b[begin..i], b[i + 1]);
    }
  }

  /** Whatever the input: a node that is read to its end is sound. */
  lemma {:induction false} BodyIsSound(b: bytes, i: nat, f: Frame)
    requires SoundFrame(b, i, f) && Body(b, i, f).Some?
    ensures Sound(b, Body(b, i, f).value.0)
    decreases |b| - i
  {
    hide WellEscaped, Sound;
    if b[i] == START {
      var c := Open(b[i + 1], i + 2);
      assert b[i + 2..i + 2] == [] && WellEscaped([]) by { assert Kept([], false) == []; EscapeRoundTrip([]); }
      BodyIsSound(b, i + 2, c);
      var (t, j) := Body(b, i + 2, c).value;
      var g := WithChild(Ended(f, i), t);
      assert forall k :: k in g.kids ==> k in f.kids || k == t;
      BodyIsSound(b, j, g);
    } else if b[i] == END {
      ClosedIsSound(b, i, f);
    } else {
      if f.kids == [] { RangeMore(b, f.begin, i); }
      BodyIsSound(b, if b[i] == ESCAPE then i + 2 else i + 1, f);
    }
  }

  lemma {:induction false} ClosedIsSound(b: bytes, i: nat, f: Frame)
    requires SoundFrame(b, i, f)
    ensures Sound(b, Closed(f, i))
  {
  }

  /** Every node of an accepted file has its property range set, with no dangling escape in it. */
  lemma {:induction false} TreeIsSound(b: bytes)
    requires |b| > MINIMAL_SIZE && Tree(b).Some?
    ensures Sound(b, Tree(b).value)
  {
    var i := IDENTIFIER_SIZE + 2;
    assert b[i..i] == [];
    BodyIsSound(b, i, Open(b[i - 1], i));
  }

  // ---- round trip -------------------------------------------------------------------------------

  datatype Otb = Otb(kind: byte, props: bytes, kids: seq<Otb>)

  function Encode(t: Otb): bytes
    decreases t
  {
    [START, t.kind] + Escape(t.props) + EncodeAll(t.kids) + [END]
  }

  function EncodeAll(kids: seq<Otb>): bytes
    decreases kids
  {
    if kids == [] then [] else Encode(kids[0]) + EncodeAll(kids[1..])
  }

  /** What is left of a node once its properties are read. */
  function Remaining(kids: seq<Otb>): (r: bytes)
    ensures |r| == |EncodeAll(kids)| + 1
  {
    EncodeAll(kids) + [END]
  }

  /** `s` stands at position `i`. */
  predicate At(b: bytes, i: nat, s: bytes) {
    i + |s| <= |b| && b[i..i + |s|] == s
  }

  lemma {:induction false} AtBoth(b: bytes, i: nat, s: bytes, t: bytes)
    requires At(b, i, s + t)
    ensures At(b, i, s) && At(b, i + |s|, t)
  {
    assert b[i..i + |s + t|][..|s|] == s && b[i..i + |s + t|][|s|..] == t;
  }

  /** The parsed node `r` of the file `b` stands for `t`. */
  ghost predicate Denotes(b: bytes, r: Parsed, t: Otb)
    decreases t
  {
    && r.kind == t.kind && At(b, r.begin, Escape(t.props)) && r.end == r.begin + |Escape(t.props)|
    && AllDenote(b, r.kids, t.kids)
  }

  ghost predicate AllDenote(b: bytes, rs: seq<Parsed>, ts: seq<Otb>)
    decreases ts
  {
    |rs| == |ts| && forall i :: 0 <= i < |rs| ==> Denotes(b, rs[i], ts[i])
  }

  /** Escaped properties are passed over. */
  lemma {:induction false} PropsPassed(b: bytes, i: nat, p: bytes, f: Frame)
    requires At(b, i, Escape(p))
    ensures Body(b, i, f) == Body(b, i + |Escape(p)|, f)
    decreases |p|
  {
    if p != [] {
      var e := if p[0] == ESCAPE || p[0] == START || p[0] == END then [ESCAPE, p[0]] else [p[0]];
      AtBoth(b, i, e, Escape(p[1..]));
      assert b[i..i + |e|][0] == b[i];
      PropsPassed(b, i + |e|, p[1..], f);
    }
  }

  lemma {:induction false} BodyChild(b: bytes, i: nat, f: Frame, t: Parsed, j: nat)
    requires i + 1 < |b| && b[i] == START && Body(b, i + 2, Open(b[i + 1], i + 2)) == Some((t, j))
    ensures Body(b, i, f) == Body(b, j, WithChild(Ended(f, i), t))
  {
  }

  lemma {:induction false} BodyEnd(b: bytes, i: nat, f: Frame)
    requires At(b, i, [END])
    ensures i < |b| && Body(b, i, f) == Some((Closed(f, i), i + 1))
  {
    assert b[i..i + 1][0] == b[i];
  }

  lemma {:induction false} EncodedParts(b: bytes, i: nat, t: Otb)
    requires At(b, i, Encode(t))
    ensures i + 1 < |b| && b[i] == START && b[i + 1] == t.kind
    ensures At(b, i + 2, Escape(t.props)) && At(b, i + 2 + |Escape(t.props)|, Remaining(t.kids))
    ensures |Encode(t)| == 2 + |Escape(t.props)| + |EncodeAll(t.kids)| + 1
  {
    var head, props, kids := [START, t.kind], Escape(t.props), Remaining(t.kids);
    assert Encode(t) == head + (props + kids);
    hide Remaining, Encode, Escape, EncodeAll;
    AtBoth(b, i, head, props + kids);
    assert b[i..i + 2][0] == b[i] && b[i..i + 2][1] == b[i + 1];
    AtBoth(b, i + 2, props, kids);
  }

  lemma {:induction false} FirstEncoded(b: bytes, i: nat, kids: seq<Otb>)
    requires kids != [] && At(b, i, Remaining(kids))
    ensures At(b, i, Encode(kids[0])) && At(b, i + |Encode(kids[0])|, Remaining(kids[1..]))
    ensures |EncodeAll(kids)| == |Encode(kids[0])| + |EncodeAll(kids[1..])|
  {
    var e, rest := Encode(kids[0]), Remaining(kids[1..]);
    assert Remaining(kids) == e + rest;
    hide Remaining, Encode, EncodeAll;
    AtBoth(b, i, e, rest);
  }

  lemma {:induction false} OneMoreDenotes(b: bytes, rs: seq<Parsed>, ts: seq<Otb>, r: Parsed, t: Otb)
    requires AllDenote(b, rs, ts) && Denotes(b, r, t)
    ensures AllDenote(b, rs + [r], ts + [t])
  {
    hide Denotes;
  }

  /** The node `f` was read to its end: `r` has the properties up to `end` and children that stand for `ts`. */
  ghost predicate Finished(b: bytes, r: Option<(Parsed, nat)>, f: Frame, end: nat, ts: seq<Otb>, next: nat) {
    r.Some? && r.value.1 == next && r.value.0.kind == f.kind && r.value.0.begin == f.begin && r.value.0.end == end
    && AllDenote(b, r.value.0.kids, ts)
  }

  lemma {:induction false} NoneDenote(b: bytes)
    ensures AllDenote(b, [], [])
  {
  }

  function EndOfProps(f: Frame, i: nat): nat
    requires Proper(f)
  {
    if f.kids == [] then i else f.end.value
  }

  lemma {:induction false} NoKidsParsed(b: bytes, i: nat, f: Frame, done: seq<Otb>)
    requires At(b, i, Remaining([])) && Proper(f) && AllDenote(b, f.kids, done)
    ensures Finished(b, Body(b, i, f), f, EndOfProps(f, i), done + [], i + |EncodeAll([])| + 1)
  {
    hide Body, At, AllDenote;
    assert Remaining([]) == [END];
    BodyEnd(b, i, f);
    assert done + [] == done;
  }

  /** The children still to be read are appended to those already there. */
  lemma {:induction false} KidsParsed(b: bytes, i: nat, kids: seq<Otb>, f: Frame, done: seq<Otb>)
    requires At(b, i, Remaining(kids)) && Proper(f) && AllDenote(b, f.kids, done)
    ensures Finished(b, Body(b, i, f), f, EndOfProps(f, i), done + kids, i + |EncodeAll(kids)| + 1)
    decreases kids, 0
  {
    hide *;
    if kids == [] {
      NoKidsParsed(b, i, f, done);
    } else {
      FirstEncoded(b, i, kids);
      EncodedParses(b, i, kids[0]);
      var (t, j) := Body(b, i + 2, Open(kids[0].kind, i + 2)).value;
      var g := WithChild(Ended(f, i), t);
      KidAdded(b, i, f, done, t, kids[0]);
      KidsParsed(b, j, kids[1..], g, done + [kids[0]]);
      ChildFinished(b, i, kids, f, done, t, j, i + |EncodeAll(kids)| + 1);
    }
  }

  lemma {:induction false} KidAdded(b: bytes, i: nat, f: Frame, done: seq<Otb>, t: Parsed, kid: Otb)
    requires Proper(f) && AllDenote(b, f.kids, done) && Denotes(b, t, kid)
    ensures var g := WithChild(Ended(f, i), t); Proper(g) && AllDenote(b, g.kids, done + [kid])
  {
    OneMoreDenotes(b, f.kids, done, t, kid);
    hide AllDenote, Denotes;
    assert WithChild(Ended(f, i), t).kids == f.kids + [t];
  }

  lemma {:induction false} ChildFinished(b: bytes, i: nat, kids: seq<Otb>, f: Frame, done: seq<Otb>, t: Parsed, j: nat,
                                         next: nat)
    requires kids != [] && Proper(f) && i + 1 < |b| && b[i] == START
    requires Body(b, i + 2, Open(b[i + 1], i + 2)) == Some((t, j))
    requires var g := WithChild(Ended(f, i), t);
      Finished(b, Body(b, j, g), g, EndOfProps(g, j), done + [kids[0]] + kids[1..], next)
    ensures Finished(b, Body(b, i, f), f, EndOfProps(f, i), done + kids, next)
  {
    BodyChild(b, i, f, t, j);
    assert done + [kids[0]] + kids[1..] == done + kids;
    hide Body, AllDenote;
  }

  /** An encoded node is read as a child that stands for it. */
  lemma {:induction false} EncodedParses(b: bytes, i: nat, t: Otb)
    requires At(b, i, Encode(t))
    ensures i + 1 < |b| && b[i] == START && b[i + 1] == t.kind
    ensures var r := Body(b, i + 2, Open(t.kind, i + 2));
      r.Some? && r.value.1 == i + |Encode(t)| && Denotes(b, r.value.0, t)
    decreases t
  {
    hide Remaining, Body, At, AllDenote, Encode, Escape, EncodeAll, Kept;
    NoneDenote(b);
    EncodedParts(b, i, t);
    var f := Open(t.kind, i + 2);
    PropsPassed(b, i + 2, t.props, f);
    KidsParsed(b, i + 2 + |Escape(t.props)|, t.kids, f, []);
    assert [] + t.kids == t.kids;
  }

  /** A file that encodes a tree is accepted exactly when only ordinary or escaped bytes follow the root,
    and then every parsed node stands for its original: the same type and children, and `getProps`
    returns the original properties. */
  lemma {:induction false} FileRoundTrip(identifier: bytes, t: Otb, behind: bytes)
    requires |identifier| == IDENTIFIER_SIZE
    requires |Encode(t) + behind| > MINIMAL_SIZE - IDENTIFIER_SIZE
    ensures var b := identifier + Encode(t) + behind;
      && (Tree(b).Some? <==> Trailing(b, IDENTIFIER_SIZE + |Encode(t)|))
      && (Tree(b).Some? ==> Denotes(b, Tree(b).value, t))
  {
    var b := identifier + Encode(t) + behind;
    assert At(b, IDENTIFIER_SIZE, Encode(t));
    EncodedParses(b, IDENTIFIER_SIZE, t);
  }

  /** A file without anything behind its root is long enough exactly when the root has properties or
    children: a bare root alone is refused. */
  lemma {:induction false} BareRootRefused(identifier: bytes, t: Otb)
    requires |identifier| == IDENTIFIER_SIZE
    ensures |identifier + Encode(t)| > MINIMAL_SIZE <==> t.props != [] || t.kids != []
    ensures Trailing(identifier + Encode(t), IDENTIFIER_SIZE + |Encode(t)|)
  {
    EscapeRoundTrip(t.props);
    if t.kids != [] { assert |Encode(t.kids[0])| >= 3; }
  }

  /** What `getProps` returns for a node that stands for `t`. */
  lemma {:induction false} PropsRoundTrip(b: bytes, r: Parsed, t: Otb)
    requires Denotes(b, r, t)
    ensures r.begin <= r.end <= |b| && Kept(b[r.begin..r.end], false) == t.props
    ensures r.begin < r.end <==> t.props != []
  {
    EscapeRoundTrip(t.props);
  }
}
