/**
 The namespace stack of src/XmlReader.h and src/XmlReader.cpp: parent-linked, reference-counted
 nodes driven by start and end tags. `live` holds the nodes that have been allocated and not
 deleted, oldest first; it behaves as an arena that grows and shrinks at one end.
 */
module Namespaces {
  import opened Bytes

  // ---- Scopes as values ------------------------------------------------

  datatype Attribute = Attribute(qName: string, value: Option<string>)

  datatype Decl = Decl(prefix: string, uri: string)

  const XMLNS: string := "xmlns"
  const XMLNS_COLON: string := "xmlns:"

  /** The node at the bottom: no prefix, no namespace. */
  const ROOT: Decl := Decl("", "")

  function OrEmpty(s: Option<string>): string {
    if s.Some? then s.value else ""
  }

  function DeclOf(a: Attribute): seq<Decl> {
    if a.qName == XMLNS then [Decl("", OrEmpty(a.value))]
    else if XMLNS_COLON <= a.qName then [Decl(a.qName[6..], OrEmpty(a.value))]
    else []
  }

  /** The declarations a start tag makes. */
  function Declared(attrs: seq<Attribute>): seq<Decl> {
    if attrs == [] then [] else
      var n := |attrs| - 1;
      Declared(attrs[..n]) + DeclOf(attrs[n])
  }

  /** An attribute named xmlns declares the default namespace, and one named xmlns:p the prefix p. */
  predicate Declares(a: Attribute, d: Decl) {
    && (a.qName == "xmlns:" + d.prefix || (a.qName == "xmlns" && d.prefix == ""))
    && d.uri == match a.value case Some(v) => v case None => ""
  }

  /** The places of the attributes that declare something. */
  function Places(attrs: seq<Attribute>): seq<nat> {
    if attrs == [] then [] else
      var n := |attrs| - 1;
      Places(attrs[..n]) + if attrs[n].qName == "xmlns" || "xmlns:" <= attrs[n].qName then [n] else []
  }

  lemma {:induction false} DeclOfIs(a: Attribute)
    ensures (a.qName == "xmlns" || "xmlns:" <= a.qName) ==> |DeclOf(a)| == 1 && Declares(a, DeclOf(a)[0])
    ensures !(a.qName == "xmlns" || "xmlns:" <= a.qName) ==> DeclOf(a) == []
    ensures forall d :: Declares(a, d) <==> d in DeclOf(a)
  {
    assert "xmlns:" <= a.qName ==> a.qName == "xmlns:" + a.qName[6..];
    forall d | Declares(a, d)
      ensures d in DeclOf(a)
    {
      assert a.qName == "xmlns:" + d.prefix ==> a.qName[6..] == d.prefix && |a.qName| >= 6;
    }
  }

  /**
   Exactly the attributes named xmlns or xmlns:p declare something, one declaration each, and the
   declarations are in the order of the attributes.
   */
  lemma {:induction false} DeclaredInOrder(attrs: seq<Attribute>)
    ensures |Declared(attrs)| == |Places(attrs)|
    ensures forall k | 0 <= k < |Places(attrs)| ::
      Places(attrs)[k] < |attrs| && Declares(attrs[Places(attrs)[k]], Declared(attrs)[k])
    ensures forall j, k | 0 <= j < k < |Places(attrs)| :: Places(attrs)[j] < Places(attrs)[k]
    ensures forall i | 0 <= i < |attrs| ::
      i in Places(attrs) <==> attrs[i].qName == "xmlns" || "xmlns:" <= attrs[i].qName
  {
    PlacesAre(attrs);
    if attrs != [] {
      var n := |attrs| - 1;
      PlacesAre(attrs[..n]);
      DeclaredInOrder(attrs[..n]);
      DeclOfIs(attrs[n]);
    }
  }

  lemma {:induction false} PlacesAre(attrs: seq<Attribute>)
    ensures forall k | 0 <= k < |Places(attrs)| :: Places(attrs)[k] < |attrs|
    ensures forall j, k | 0 <= j < k < |Places(attrs)| :: Places(attrs)[j] < Places(attrs)[k]
    ensures forall i | 0 <= i < |attrs| ::
      i in Places(attrs) <==> attrs[i].qName == "xmlns" || "xmlns:" <= attrs[i].qName
  {
    if attrs != [] {
      var n := |attrs| - 1;
      PlacesAre(attrs[..n]);
      assert forall i | 0 <= i < n :: attrs[..n][i] == attrs[i];
    }
  }

  /** So these are the declarations of a start tag. */
  lemma {:induction false} DeclaredIs(attrs: seq<Attribute>, d: Decl)
    ensures d in Declared(attrs) <==> exists a | a in attrs :: Declares(a, d)
  {
    if attrs != [] {
      var n := |attrs| - 1;
      DeclaredIs(attrs[..n], d);
      DeclOfIs(attrs[n]);
      assert attrs == attrs[..n] + [attrs[n]];
    }
  }

  /** The declarations in scope, outermost first, and how many of them there were after each push. */
  datatype Scopes = Scopes(chain: seq<Decl>, marks: seq<nat>)

  function Base(s: Scopes): seq<Decl> {
    if s.marks == [] then [ROOT] else s.chain
  }

  function Push(s: Scopes, attrs: seq<Attribute>): Scopes {
    var chain := Base(s) + Declared(attrs);
    Scopes(chain, s.marks + [|chain|])
  }

  function Pop(s: Scopes): Scopes {
    if s.marks == [] then s else
      var marks := s.marks[..|s.marks| - 1];
      Scopes(if Top(marks) <= |s.chain| then s.chain[..Top(marks)] else s.chain, marks)
  }

  function Top(marks: seq<nat>): nat {
    if marks == [] then 0 else marks[|marks| - 1]
  }

  /** Marks never fall, start at 1, and end at the length. */
  ghost predicate Proper(len: nat, marks: seq<nat>) {
    && len == Top(marks)
    && (marks != [] ==>
          var below := marks[..|marks| - 1];
          1 <= len && Top(below) <= len && Proper(Top(below), below))
  }

  lemma {:induction false} MarkBelow(len: nat, marks: seq<nat>, k: nat)
    requires Proper(len, marks) && k < |marks|
    ensures 1 <= marks[k] <= len
    decreases |marks|
  {
    var below := marks[..|marks| - 1];
    if k < |below| {
      MarkBelow(Top(below), below, k);
      assert below[k] == marks[k];
    }
  }

  lemma {:induction false} MarksBelow(len: nat, marks: seq<nat>)
    requires Proper(len, marks)
    ensures forall k | 0 <= k < |marks| :: 1 <= marks[k] <= len
  {
    forall k | 0 <= k < |marks|
      ensures 1 <= marks[k] <= len
    {
      MarkBelow(len, marks, k);
    }
  }

  lemma {:induction false} PopIsTake(s: Scopes)
    requires Proper(|s.chain|, s.marks)
    ensures Pop(s).chain == s.chain[..|Pop(s).chain|]
  {
  }

  lemma {:induction false} PushPop(s: Scopes, attrs: seq<Attribute>)
    requires Proper(|s.chain|, s.marks)
    ensures Proper(|Push(s, attrs).chain|, Push(s, attrs).marks)
    ensures Pop(Push(s, attrs)) == s
  {
    assert Push(s, attrs).marks[..|s.marks|] == s.marks;
  }

  // ---- Reference counts ------------------------------------------------

  /** How many stack items point at node i. */
  function Items(marks: seq<nat>, i: nat): nat {
    if marks == [] then 0 else
      var n := |marks| - 1;
      Items(marks[..n], i) + if marks[n] == i + 1 then 1 else 0
  }

  /** Stack items pointing at node i, plus the node after it, whose parent it is. */
  function RefCount(len: nat, marks: seq<nat>, i: nat): nat {
    Items(marks, i) + if i + 1 < len then 1 else 0
  }

  function RefCounts(len: nat, marks: seq<nat>, n: nat): (r: seq<int>)
    ensures |r| == n
  {
    if n == 0 then [] else RefCounts(len, marks, n - 1) + [RefCount(len, marks, n - 1)]
  }

  lemma {:induction false} CountsAt(len: nat, marks: seq<nat>, n: nat)
    ensures forall i | 0 <= i < n :: RefCounts(len, marks, n)[i] == RefCount(len, marks, i)
  {
    if n > 0 {
      CountsAt(len, marks, n - 1);
    }
  }

  lemma {:induction false} CountsAre(len: nat, marks: seq<nat>, n: nat, r: seq<int>)
    requires |r| == n && forall i | 0 <= i < n :: r[i] == RefCount(len, marks, i)
    ensures RefCounts(len, marks, n) == r
  {
    CountsAt(len, marks, n);
  }

  /** One more reference to the last node. */
  function OneMore(refs: seq<int>): seq<int> {
    if refs == [] then [] else refs[|refs| - 1 := refs[|refs| - 1] + 1]
  }

  /** What deref() on the last node leaves: it goes down the chain as long as counts fall to zero. */
  function Released(refs: seq<int>): seq<int> {
    if refs == [] then [] else
      var n := |refs| - 1;
      if refs[n] - 1 <= 0 then Released(refs[..n]) else refs[..n] + [refs[n] - 1]
  }

  lemma {:induction false} NoItems(marks: seq<nat>, i: nat)
    requires forall k | 0 <= k < |marks| :: marks[k] != i + 1
    ensures Items(marks, i) == 0
  {
    if marks != [] {
      NoItems(marks[..|marks| - 1], i);
    }
  }

  /**
   Nodes above the next mark are counted once each, by the node above or by the item that has just
   been popped, so deref() frees them one after the other and stops at the mark.
   */
  lemma {:induction false} ReleasedTo(len: nat, marks: seq<nat>, n: nat, refs: seq<int>)
    requires Proper(len, marks) && n == |refs|
    requires len <= n && (len < n ==> refs[n - 1] == 1) && (len == n > 0 ==> refs[n - 1] == Items(marks, n - 1) + 1)
    requires forall i | 0 <= i < n - 1 :: refs[i] == Items(marks, i) + 1
    requires len > 0 || marks == []
    ensures Released(refs) == RefCounts(len, marks, len)
  {
    if len < n {
      if len < n - 1 {
        MarksBelow(len, marks);
        NoItems(marks, n - 2);
      }
      ReleasedTo(len, marks, n - 1, refs[..n - 1]);
    } else if n > 0 {
      assert Items(marks, n - 1) >= 1 by {
        assert marks[|marks| - 1] == n;
      }
      CountsAre(len, marks, len, Released(refs));
    }
  }

  /**
   The end of an element: once the top item is gone, deref() frees exactly the nodes its start tag
   made, and the counts that are left are again exact.
   */
  lemma {:induction false} PopFrees(s: Scopes)
    requires Proper(|s.chain|, s.marks) && s.marks != []
    ensures Proper(|Pop(s).chain|, Pop(s).marks)
    ensures Released(RefCounts(|s.chain|, s.marks, |s.chain|)) == RefCounts(|Pop(s).chain|, Pop(s).marks,
      |Pop(s).chain|)
  {
    var n, p := |s.chain|, Pop(s);
    forall i | 0 <= i < n
      ensures Items(s.marks, i) == Items(p.marks, i) + if i == n - 1 then 1 else 0
    {
    }
    if |p.chain| < n {
      MarksBelow(|p.chain|, p.marks);
      NoItems(p.marks, n - 1);
    }
    CountsAt(n, s.marks, n);
    ReleasedTo(|p.chain|, p.marks, n, RefCounts(n, s.marks, n));
  }

  /** The same, as the release of a node sees it. */
  lemma {:induction false} ReleasedIs(s: Scopes, refs: seq<int>)
    requires Proper(|s.chain|, s.marks) && s.marks != [] && refs == RefCounts(|s.chain|, s.marks, |s.chain|)
    ensures var p := Pop(s); var n := |p.chain|;
      && n <= |s.chain| && p.chain == s.chain[..n] && Proper(n, p.marks)
      && Released(refs) == RefCounts(n, p.marks, n) && |Released(refs)| == n
  {
    PopFrees(s);
    PopIsTake(s);
  }

  // ---- Lookup ------------------------------------------------

  /** The innermost declaration whose prefix is an initial segment of the name. */
  function Found(chain: seq<Decl>, qName: string): (r: Option<nat>)
    ensures r.Some? ==> r.value < |chain|
  {
    if chain == [] then None else
      var n := |chain| - 1;
      if chain[n].prefix <= qName then Some(n) else Found(chain[..n], qName)
  }

  function UriFor(chain: seq<Decl>, qName: string): Option<string> {
    match Found(chain, qName)
    case Some(i) => Some(chain[i].uri)
    case None => None
  }

  /** The prefix of declaration i begins the name, and that of no nearer one does. */
  predicate Nearest(chain: seq<Decl>, qName: string, i: nat) {
    i < |chain| && chain[i].prefix <= qName && forall k | i < k < |chain| :: !(chain[k].prefix <= qName)
  }

  lemma {:induction false} FoundIs(chain: seq<Decl>, qName: string, i: nat)
    ensures Found(chain, qName) == Some(i) <==> Nearest(chain, qName, i)
    ensures Found(chain, qName) == None <==> forall k | 0 <= k < |chain| :: !(chain[k].prefix <= qName)
  {
    if chain != [] {
      FoundIs(chain[..|chain| - 1], qName, i);
    }
  }

  /** Lookup never comes back empty-handed: the root's prefix is an initial segment of every name. */
  lemma {:induction false} AlwaysFound(chain: seq<Decl>, qName: string)
    requires chain != [] && chain[0] == ROOT
    ensures UriFor(chain, qName).Some?
  {
    FoundIs(chain, qName, 0);
  }

  // ---- Namespaces in XML 1.0 ------------------------------------------------

  /** The part of a qualified name before its first colon; empty when there is none. */
  function PrefixOf(qName: string): string {
    var colon := FirstColon(qName);
    if colon < |qName| then qName[..colon] else ""
  }

  function FirstColon(s: string): (i: nat)
    ensures i <= |s| && (i < |s| ==> s[i] == ':') && forall k | 0 <= k < i :: s[k] != ':'
  {
    if s == [] || s[0] == ':' then 0 else 1 + FirstColon(s[1..])
  }

  /** Sections 6.1 and 6.2: the innermost declaration of the very prefix of the name. */
  function Bound(chain: seq<Decl>, prefix: string): Option<nat> {
    if chain == [] then None else
      var n := |chain| - 1;
      if chain[n].prefix == prefix then Some(n) else Bound(chain[..n], prefix)
  }

  lemma {:induction false} BoundIs(chain: seq<Decl>, prefix: string)
    ensures Bound(chain, prefix).Some? ==>
      var i := Bound(chain, prefix).value;
      i < |chain| && chain[i].prefix == prefix && forall k | i < k < |chain| :: chain[k].prefix != prefix
    ensures Bound(chain, prefix).None? ==> forall k | 0 <= k < |chain| :: chain[k].prefix != prefix
  {
    if chain != [] {
      BoundIs(chain[..|chain| - 1], prefix);
    }
  }

  /**
   The lookup gives the declaration that the standard asks for exactly when no declaration nearer
   than that has a prefix that is an initial segment of the name.
   */
  lemma {:induction false} AgreesWithStandard(chain: seq<Decl>, qName: string)
    requires Bound(chain, PrefixOf(qName)).Some?
    ensures var i := Bound(chain, PrefixOf(qName)).value;
      Found(chain, qName) == Some(i) <==> forall k | i < k < |chain| :: !(chain[k].prefix <= qName)
  {
    BoundIs(chain, PrefixOf(qName));
    FoundIs(chain, qName, Bound(chain, PrefixOf(qName)).value);
  }

  /** A default declaration between p's declaration and its use wins over it. */
  lemma {:induction false} DefaultHidesPrefix(a: string, b: string)
    requires a != b
    ensures var chain := [ROOT, Decl("p", a), Decl("", b)];
      Bound(chain, PrefixOf("p:x")) == Some(1) && UriFor(chain, "p:x") == Some(b)
  {
    var chain := [ROOT, Decl("p", a), Decl("", b)];
    assert FirstColon("p:x") == 1;
    assert chain[..2] == [ROOT, Decl("p", a)];
    FoundIs(chain, "p:x", 2);
  }

  /** A prefix wins over the default namespace for every unprefixed name that begins with it. */
  lemma {:induction false} PrefixCapturesName(a: string)
    ensures var chain := [ROOT, Decl("a", a)];
      Bound(chain, PrefixOf("abc")) == Some(0) && UriFor(chain, "abc") == Some(a)
  {
    var chain := [ROOT, Decl("a", a)];
    assert FirstColon("abc") == 3;
    assert chain[..1] == [ROOT];
    FoundIs(chain, "abc", 1);
  }

  // ---- Runs of start and end tags ------------------------------------------------

  datatype Event = Start(name: string, attrs: seq<Attribute>) | End(name: string)

  const EMPTY: Scopes := Scopes([], [])

  function Step(s: Scopes, e: Event): Scopes {
    match e
    case Start(_, attrs) => Push(s, attrs)
    case End(_) => Pop(s)
  }

  /** The scopes after the first i events. */
  function After(events: seq<Event>, i: nat): Scopes
    requires i <= |events|
  {
    if i == 0 then EMPTY else Step(After(events, i - 1), events[i - 1])
  }

  /** Which start tags are open after the first i events; None when an end tag did not match. */
  function Opens(events: seq<Event>, i: nat): (r: Option<seq<nat>>)
    requires i <= |events|
    ensures r.Some? ==> forall k | 0 <= k < |r.value| :: r.value[k] < i
  {
    if i == 0 then Some([]) else
      var before, e := Opens(events, i - 1), events[i - 1];
      match before
      case None => None
      case Some(open) =>
        if e.Start? then Some(open + [i - 1])
        else if open != [] && events[open[|open| - 1]].name == e.name then Some(open[..|open| - 1])
        else None
  }

  /** The namespace that is reported to the content handler for the event at i. */
  function Reported(events: seq<Event>, i: nat): Option<string>
    requires i < |events|
  {
    UriFor(After(events, if events[i].Start? then i + 1 else i).chain, events[i].name)
  }

  /** The declarations of the open elements, outermost first. */
  function InScope(events: seq<Event>, open: seq<nat>): seq<Decl> {
    if open == [] then [ROOT] else
      var n := |open| - 1;
      InScope(events, open[..n]) + if open[n] < |events|
        && events[open[n]].Start? then Declared(events[open[n]].attrs) else []
  }

  /** The part of the chain up to mark k is what it was after the push that made the mark. */
  ghost predicate MarkKeeps(events: seq<Event>, s: Scopes, open: seq<nat>, k: nat) {
    && k < |s.marks| && k < |open| && s.marks[k] <= |s.chain| && open[k] < |events|
    && s.chain[..s.marks[k]] == After(events, open[k] + 1).chain
  }

  ghost predicate MarksKeep(events: seq<Event>, s: Scopes, open: seq<nat>) {
    && Proper(|s.chain|, s.marks) && |s.marks| == |open|
    && forall k: nat | k < |open| :: MarkKeeps(events, s, open, k)
  }

  lemma {:induction false} PrefixTwice<T>(a: seq<T>, b: seq<T>, c: seq<T>)
    requires a <= b && b <= c
    ensures a <= c
  {
  }

  lemma {:induction false} GrownTwice(a: set<XmlNamespace>, b: set<XmlNamespace>, c: set<XmlNamespace>)
    ensures c - a <= (b - a) + (c - b)
  {
  }

  /** What is below both stays below. */
  lemma {:induction false} PrefixKeeps<T>(base: seq<T>, a: seq<T>, b: seq<T>)
    requires base <= a && (a <= b || b <= a) && |base| <= |b|
    ensures base <= b && (|base| == |b| ==> base == b)
  {
  }

  lemma {:induction false} MarkKeepsPush(events: seq<Event>, s: Scopes, open: seq<nat>, k: nat, attrs: seq<Attribute>,
      n: nat)
    requires MarkKeeps(events, s, open, k)
    ensures MarkKeeps(events, Push(s, attrs), open + [n], k)
  {
    var s' := Push(s, attrs);
    assert s'.chain == s.chain + Declared(attrs) && s'.marks[k] == s.marks[k] && (open + [n])[k] == open[k];
    assert s'.chain[..s.marks[k]] == s.chain[..s.marks[k]];
  }

  lemma {:induction false} MarksKeepPush(events: seq<Event>, s: Scopes, open: seq<nat>, attrs: seq<Attribute>, n: nat)
    requires MarksKeep(events, s, open) && n < |events| && After(events, n + 1) == Push(s, attrs)
    ensures MarksKeep(events, Push(s, attrs), open + [n])
  {
    var chain, marks := Push(s, attrs).chain, Push(s, attrs).marks;
    PushPop(s, attrs);
    var s', open' := Push(s, attrs), open + [n];
    forall k: nat | k < |open'|
      ensures MarkKeeps(events, s', open', k)
    {
      if k < |open| {
        MarkKeepsPush(events, s, open, k, attrs, n);
      } else {
        assert chain[..|chain|] == chain;
      }
    }
  }

  lemma {:induction false} MarkKeepsPop(events: seq<Event>, s: Scopes, open: seq<nat>, k: nat)
    requires MarkKeeps(events, s, open, k) && k + 1 < |open| == |s.marks|
    requires s.marks[k] <= |Pop(s).chain| && Pop(s).chain == s.chain[..|Pop(s).chain|]
    ensures MarkKeeps(events, Pop(s), open[..|open| - 1], k)
  {
    assert Pop(s).chain[..s.marks[k]] == s.chain[..s.marks[k]];
  }

  lemma {:induction false} MarksKeepPop(events: seq<Event>, s: Scopes, open: seq<nat>)
    requires MarksKeep(events, s, open) && open != []
    ensures MarksKeep(events, Pop(s), open[..|open| - 1])
  {
    PopFrees(s);
    PopIsTake(s);
    MarksBelow(|Pop(s).chain|, Pop(s).marks);
    var s', open' := Pop(s), open[..|open| - 1];
    forall k: nat | k < |open'|
      ensures MarkKeeps(events, s', open', k)
    {
      assert s'.marks[k] == s.marks[k];
      MarkKeepsPop(events, s, open, k);
    }
  }

  /** As long as something is open, the chain starts at the root. */
  predicate Rooted(s: Scopes) {
    s.marks != [] ==> s.chain != [] && s.chain[0] == ROOT
  }

  lemma {:induction false} RootedStep(s: Scopes, e: Event)
    requires Rooted(s) && Proper(|s.chain|, s.marks)
    ensures Rooted(Step(s, e))
  {
    match e
    case Start(_, attrs) => assert Base(s)[0] == ROOT;
    case End(_) => PopIsTake(s);
  }

  lemma {:induction false} StepKeepsMarks(events: seq<Event>, i: nat)
    requires i < |events| && Opens(events, i).Some? && Opens(events, i + 1).Some?
    requires MarksKeep(events, After(events, i), Opens(events, i).value)
    ensures MarksKeep(events, After(events, i + 1), Opens(events, i + 1).value)
  {
    var s, open, e := After(events, i), Opens(events, i).value, events[i];
    if e.Start? {
      MarksKeepPush(events, s, open, e.attrs, i);
    } else {
      MarksKeepPop(events, s, open);
    }
  }

  lemma {:induction false} RunKeepsMarks(events: seq<Event>, i: nat)
    requires i <= |events| && Opens(events, i).Some?
    ensures MarksKeep(events, After(events, i), Opens(events, i).value)
    ensures Rooted(After(events, i))
  {
    if i > 0 {
      RunKeepsMarks(events, i - 1);
      StepKeepsMarks(events, i - 1);
      RootedStep(After(events, i - 1), events[i - 1]);
    }
  }

  lemma {:induction false} OpensPrefix(events: seq<Event>, j: nat, i: nat)
    requires j <= i <= |events| && Opens(events, i).Some?
    ensures Opens(events, j).Some?
  {
    if j < i {
      OpensPrefix(events, j, i - 1);
    }
  }

  lemma {:induction false} SameStart(before: seq<nat>, open: seq<nat>, n: nat, k: nat)
    requires open == before + [n] || (before != [] && open == before[..|before| - 1])
    requires k < |before| && k < |open|
    ensures open[k] == before[k] && open[..k + 1] == before[..k + 1]
  {
  }

  /** When a start tag was read, the elements open then were those that are still open below it. */
  lemma {:induction false} OpensAt(events: seq<Event>, open: seq<nat>, k: nat, i: nat)
    requires i <= |events| && Opens(events, i) == Some(open) && k < |open|
    ensures open[k] < i && events[open[k]].Start? && Opens(events, open[k] + 1) == Some(open[..k + 1])
    decreases i
  {
    var before, e := Opens(events, i - 1).value, events[i - 1];
    if e.Start? && k == |before| {
      assert open[..k + 1] == open;
    } else {
      OpensAt(events, before, k, i - 1);
      SameStart(before, open, i - 1, k);
    }
  }

  /** A start tag: its namespace is looked up in what it has pushed. */
  lemma {:induction false} StartFinds(events: seq<Event>, start: nat)
    requires start < |events| && events[start].Start? && Opens(events, start).Some?
    ensures Reported(events, start).Some?
  {
    RunKeepsMarks(events, start + 1);
    AlwaysFound(After(events, start + 1).chain, events[start].name);
  }

  /** The chain is as it was when the innermost open element was opened. */
  lemma {:induction false} TopMark(events: seq<Event>, s: Scopes, open: seq<nat>)
    requires MarksKeep(events, s, open) && open != []
    ensures open[|open| - 1] < |events| && s.chain == After(events, open[|open| - 1] + 1).chain
  {
    assert MarkKeeps(events, s, open, |open| - 1);
    assert s.marks[|open| - 1] == |s.chain| && s.chain[..|s.chain|] == s.chain;
  }

  /**
   An end tag that closes an element reports the namespace that the element's start tag reported,
   and there always is one.
   */
  lemma {:induction false} SameAtBothEnds(events: seq<Event>, i: nat)
    requires i < |events| && events[i].End? && Opens(events, i + 1).Some?
    ensures var open := Opens(events, i);
      && open.Some? && open.value != []
      && var start := open.value[|open.value| - 1];
         && start < i && events[start].Start? && events[start].name == events[i].name
         && Reported(events, i) == Reported(events, start) && Reported(events, i).Some?
  {
    RunKeepsMarks(events, i);
    var open := Opens(events, i).value;
    TopMark(events, After(events, i), open);
    OpensAt(events, open, |open| - 1, i);
    OpensPrefix(events, open[|open| - 1], i);
    StartFinds(events, open[|open| - 1]);
  }

  lemma {:induction false} TakeAll<T>(s: seq<T>)
    ensures s[..|s|] == s
  {
  }

  /** Which elements were open when the innermost open one was opened. */
  lemma {:induction false} OpenedOver(events: seq<Event>, open: seq<nat>, i: nat)
    requires i <= |events| && Opens(events, i) == Some(open) && open != []
    ensures var n := |open| - 1;
      open[n] < i && events[open[n]].Start? && Opens(events, open[n]) == Some(open[..n])
  {
    var n := |open| - 1;
    OpensAt(events, open, n, i);
    TakeAll(open);
    var before := Opens(events, open[n]).value;
    assert before + [open[n]] == open;
    assert before == (before + [open[n]])[..n];
  }

  /** The chain holds the declarations of the open elements, and nothing else. */
  lemma {:induction false} ChainIsInScope(events: seq<Event>, i: nat)
    requires i <= |events| && Opens(events, i).Some?
    ensures var open := Opens(events, i).value;
      if open == [] then After(events, i) == EMPTY else After(events, i).chain == InScope(events, open)
    decreases i, 0
  {
    RunKeepsMarks(events, i);
    var open := Opens(events, i).value;
    if open != [] {
      OpenedOver(events, open, i);
      TopMark(events, After(events, i), open);
      BaseIsInScope(events, open[|open| - 1], open[..|open| - 1]);
    }
  }

  lemma {:induction false} BaseIsInScope(events: seq<Event>, i: nat, open: seq<nat>)
    requires i < |events| && Opens(events, i) == Some(open)
    ensures Base(After(events, i)) == InScope(events, open)
    decreases i, 1
  {
    ChainIsInScope(events, i);
    RunKeepsMarks(events, i);
  }

  /** The open elements whose declarations are in scope for the event at i. */
  function OpenFor(events: seq<Event>, i: nat): seq<nat>
    requires i < |events|
  {
    var open := Opens(events, if events[i].Start? then i + 1 else i);
    if open.Some? then open.value else []
  }

  /** The declaration a name refers to, and what it is taken for. */
  lemma {:induction false} AgreesExactly(chain: seq<Decl>, name: string)
    requires Bound(chain, PrefixOf(name)).Some?
    ensures var b := Bound(chain, PrefixOf(name)).value;
      && b < |chain|
      && (UriFor(chain, name) == Some(chain[b].uri) <==>
            forall k | b < k < |chain| && Nearest(chain, name, k) :: chain[k].uri == chain[b].uri)
      && ((forall k | b < k < |chain| :: !(chain[k].prefix <= name)) <==> Found(chain, name) == Some(b))
  {
    AgreesWithStandard(chain, name);
    BoundIs(chain, PrefixOf(name));
    FoundIs(chain, name, Bound(chain, PrefixOf(name)).value);
    forall k: nat
      ensures Found(chain, name) == Some(k) <==> Nearest(chain, name, k)
    {
      FoundIs(chain, name, k);
    }
  }

  /**
   Agreement with the standard over a parse. The namespace reported for an element is that of the
   innermost declaration of its very prefix in scope, exactly when no declaration in scope nearer
   than that has a prefix that is an initial segment of the name, or the innermost such one binds
   the same namespace.
   */
  lemma {:induction false} ReportedAgrees(events: seq<Event>, i: nat)
    requires i < |events| && Opens(events, i + 1).Some?
    requires Bound(InScope(events, OpenFor(events, i)), PrefixOf(events[i].name)).Some?
    ensures var chain, name := InScope(events, OpenFor(events, i)), events[i].name;
      var b := Bound(chain, PrefixOf(name)).value;
      && b < |chain|
      && (Reported(events, i) == Some(chain[b].uri) <==>
            forall k | b < k < |chain| && Nearest(chain, name, k) :: chain[k].uri == chain[b].uri)
      && ((forall k | b < k < |chain| :: !(chain[k].prefix <= name)) <==> Found(chain, name) == Some(b))
  {
    ReportedInScope(events, i);
    AgreesExactly(InScope(events, OpenFor(events, i)), events[i].name);
  }

  lemma {:induction false} ReportedInScope(events: seq<Event>, i: nat)
    requires i < |events| && Opens(events, i + 1).Some?
    ensures Reported(events, i) == UriFor(InScope(events, OpenFor(events, i)), events[i].name)
  {
    if events[i].Start? {
      ChainIsInScope(events, i + 1);
    } else {
      SameAtBothEnds(events, i);
      ChainIsInScope(events, i);
    }
  }

  /** Attribute k declares a prefix that begins the name, and no attribute behind it does. */
  ghost predicate LastMatching(attrs: seq<Attribute>, k: nat, d: Decl, name: string) {
    && k < |attrs| && Declares(attrs[k], d) && d.prefix <= name
    && forall i, e | k < i < |attrs| && Declares(attrs[i], e) :: !(e.prefix <= name)
  }

  /** What a start tag declares last, of what begins its name, wins over everything in scope around it. */
  lemma {:induction false} LastOfTagWins(base: seq<Decl>, attrs: seq<Attribute>, k: nat, d: Decl, name: string)
    requires LastMatching(attrs, k, d, name)
    ensures UriFor(base + Declared(attrs), name) == Some(d.uri)
  {
    var before, a := attrs[..|attrs| - 1], attrs[|attrs| - 1];
    var chain := base + Declared(before);
    assert base + Declared(attrs) == chain + DeclOf(a);
    if k == |before| {
      AddsLast(chain, a, d, name);
    } else {
      MatchesBefore(attrs, k, d, name);
      LastOfTagWins(base, before, k, d, name);
      AddsNothing(chain, a, name);
    }
  }

  lemma {:induction false} MatchesBefore(attrs: seq<Attribute>, k: nat, d: Decl, name: string)
    requires LastMatching(attrs, k, d, name) && k < |attrs| - 1
    ensures LastMatching(attrs[..|attrs| - 1], k, d, name)
  {
    var before := attrs[..|attrs| - 1];
    forall i, e | k < i < |before| && Declares(before[i], e)
      ensures !(e.prefix <= name)
    {
      assert Declares(attrs[i], e);
    }
  }

  /** What the last attribute declares wins, if it begins the name. */
  lemma {:induction false} AddsLast(chain: seq<Decl>, a: Attribute, d: Decl, name: string)
    requires Declares(a, d) && d.prefix <= name
    ensures UriFor(chain + DeclOf(a), name) == Some(d.uri)
  {
    DeclOfIs(a);
    assert DeclOf(a) == [d];
  }

  /** An attribute that declares nothing, or a prefix that does not begin the name, changes nothing. */
  lemma {:induction false} AddsNothing(chain: seq<Decl>, a: Attribute, name: string)
    requires forall e | Declares(a, e) :: !(e.prefix <= name)
    ensures UriFor(chain + DeclOf(a), name) == UriFor(chain, name)
  {
    DeclOfIs(a);
    if DeclOf(a) == [] {
      assert chain + DeclOf(a) == chain;
    } else {
      assert Declares(a, DeclOf(a)[0]) && (chain + DeclOf(a))[..|chain|] == chain;
    }
  }

  /**
   An element whose start tag carries xmlns=u, and no attribute behind it for a prefix that begins
   the element's name, is reported in the namespace u at both ends, whatever is declared around it.
   The same goes for xmlns:p=u, if p begins the name.
   */
  lemma {:induction false} OwnDeclarationWins(events: seq<Event>, i: nat, k: nat, d: Decl, j: nat)
    requires i < |events| && events[i].Start? && LastMatching(events[i].attrs, k, d, events[i].name)
    ensures Reported(events, i) == Some(d.uri)
    ensures Closes(events, i, j) ==> Reported(events, j) == Some(d.uri)
  {
    StartPushes(events, i);
    LastOfTagWins(Base(After(events, i)), events[i].attrs, k, d, events[i].name);
    if Closes(events, i, j) {
      ClosesSame(events, i, j);
    }
  }

  lemma {:induction false} StartPushes(events: seq<Event>, i: nat)
    requires i < |events| && events[i].Start?
    ensures Reported(events, i) == UriFor(Base(After(events, i)) + Declared(events[i].attrs), events[i].name)
  {
    assert After(events, i + 1) == Push(After(events, i), events[i].attrs);
  }

  lemma {:induction false} ClosesSame(events: seq<Event>, i: nat, j: nat)
    requires i < |events| && Closes(events, i, j)
    ensures Reported(events, j) == Reported(events, i)
  {
    SameAtBothEnds(events, j);
  }

  /** The tag at j ends the element that the tag at i begins. */
  predicate Closes(events: seq<Event>, i: nat, j: nat) {
    && j < |events| && events[j].End? && Opens(events, j + 1).Some?
    && var open := Opens(events, j);
       open.Some? && open.value != [] && open.value[|open.value| - 1] == i
  }

  // ---- The classes ------------------------------------------------

  /** Every node's parent is the one before it. */
  ghost predicate Chained(chain: seq<XmlNamespace>) {
    && (forall i | 0 <= i < |chain| :: chain[i].depth == i)
    && (forall i {:trigger chain[i].m_parent} | 0 <= i < |chain| ::
          chain[i].m_parent == if i == 0 then null else chain[i - 1])
  }

  ghost function Decls(chain: seq<XmlNamespace>): (r: seq<Decl>)
    ensures |r| == |chain|
  {
    if chain == [] then [] else
      var n := |chain| - 1;
      Decls(chain[..n]) + [Decl(chain[n].m_prefix, chain[n].m_uri)]
  }

  lemma {:induction false} DeclsTake(chain: seq<XmlNamespace>, n: nat)
    requires n <= |chain|
    ensures Decls(chain[..n]) == Decls(chain)[..n]
    decreases |chain|
  {
    if n == |chain| {
      assert chain[..n] == chain;
    } else {
      var below := chain[..|chain| - 1];
      assert below[..n] == chain[..n];
      DeclsTake(below, n);
    }
  }

  ghost function Refs(chain: seq<XmlNamespace>): (r: seq<int>)
    reads set n | n in chain
    ensures |r| == |chain|
    decreases |chain|
  {
    if chain == [] then [] else Refs(chain[..|chain| - 1]) + [chain[|chain| - 1].m_ref]
  }

  lemma {:induction false} RefsAt(chain: seq<XmlNamespace>)
    ensures forall i | 0 <= i < |chain| :: Refs(chain)[i] == chain[i].m_ref
    decreases |chain|
  {
    if chain != [] {
      RefsAt(chain[..|chain| - 1]);
    }
  }

  lemma {:induction false} RefsAre(chain: seq<XmlNamespace>, r: seq<int>)
    requires |r| == |chain| && forall i | 0 <= i < |chain| :: chain[i].m_ref == r[i]
    ensures Refs(chain) == r
  {
    RefsAt(chain);
  }

  class XmlNamespace {
    const m_prefix: string
    const m_uri: string
    const m_parent: XmlNamespace?
    var m_ref: int
    /** The number of ancestors. */
    ghost const depth: nat

    constructor (p: Option<string>, u: Option<string>, parent: XmlNamespace?)
      modifies if parent == null then {} else {parent}
      ensures depth == if parent == null then 0 else parent.depth + 1
      ensures m_prefix == OrEmpty(p) && m_uri == OrEmpty(u) && m_parent == parent && m_ref == 0
      ensures parent != null ==> parent.m_ref == old(parent.m_ref) + 1
    {
      m_prefix, m_uri, m_parent, m_ref := OrEmpty(p), OrEmpty(u), parent, 0;
      depth := if parent == null then 0 else parent.depth + 1;
      new;
      if parent != null {
        parent.Ref();
      }
    }

    method Ref()
      modifies this
      ensures m_ref == old(m_ref) + 1
    {
      m_ref := m_ref + 1;
    }

    /** One reference more to the last node of a chain. */
    method RefLast(ghost chain: seq<XmlNamespace>)
      requires Chained(chain) && chain != [] && chain[|chain| - 1] == this
      modifies this
      ensures Refs(chain) == OneMore(old(Refs(chain)))
    {
      ghost var refs, n := Refs(chain), |chain|;
      RefsAt(chain);
      Ref();
      forall i | 0 <= i < n
        ensures chain[i].m_ref == if i == n - 1 then refs[i] + 1 else refs[i]
      {
        assert chain[i].depth == i && chain[n - 1].depth == n - 1;
      }
      RefsHeld(chain, refs);
    }

    /** deref: a node whose count falls to zero is deleted after its parent has been released. */
    method Deref(ghost chain: seq<XmlNamespace>) returns (ghost rest: seq<XmlNamespace>)
      requires Chained(chain) && chain != [] && chain[|chain| - 1] == this
      modifies set n | n in chain
      ensures rest <= chain && Refs(rest) == Released(old(Refs(chain)))
      decreases |chain|
    {
      ghost var n, before, refs := |chain| - 1, chain[..|chain| - 1], Refs(chain);
      assert refs[..n] == Refs(before);
      m_ref := m_ref - 1;
      rest := chain;
      if m_ref <= 0 {
        rest := before;
        if m_parent != null {
          rest := m_parent.Deref(before);
        }
      } else {
        assert Refs(rest) == refs[..n] + [refs[n] - 1];
      }
    }

    /** uriForPrefix */
    function UriForPrefix(qName: string, ghost chain: seq<XmlNamespace>): (uri: Option<string>)
      requires Chained(chain) && chain != [] && chain[|chain| - 1] == this
      ensures uri == UriFor(Decls(chain), qName)
      decreases |chain|
    {
      ghost var before := chain[..|chain| - 1];
      assert Decls(chain)[..|chain| - 1] == Decls(before);
      assert |chain| > 1 ==> m_parent == chain[|chain| - 2];
      if m_prefix <= qName then Some(m_uri)
      else if m_parent != null then m_parent.UriForPrefix(qName, before)
      else None
    }
  }

  /** Each stack item points at the node its mark is on. */
  ghost predicate Pointing(stack: seq<XmlNamespace>, live: seq<XmlNamespace>, marks: seq<nat>) {
    && |stack| == |marks|
    && forall k | 0 <= k < |stack| :: 1 <= marks[k] <= |live| && stack[k] == live[marks[k] - 1]
  }

  function StackItems(stack: seq<XmlNamespace>, n: XmlNamespace): nat {
    if stack == [] then 0 else
      StackItems(stack[..|stack| - 1], n) + if stack[|stack| - 1] == n then 1 else 0
  }

  function Children(live: seq<XmlNamespace>, n: XmlNamespace): nat {
    if live == [] then 0 else
      Children(live[..|live| - 1], n) + if live[|live| - 1].m_parent == n then 1 else 0
  }

  lemma {:induction false} ItemsAreStackItems(stack: seq<XmlNamespace>, live: seq<XmlNamespace>, marks: seq<nat>,
      i: nat)
    requires Pointing(stack, live, marks) && Chained(live) && i < |live|
    ensures StackItems(stack, live[i]) == Items(marks, i)
  {
    if stack != [] {
      var n := |stack| - 1;
      ItemsAreStackItems(stack[..n], live, marks[..n], i);
      assert stack[n] == live[marks[n] - 1];
    }
  }

  lemma {:induction false} ChildrenAreNext(live: seq<XmlNamespace>, len: nat, i: nat)
    requires Chained(live) && len <= |live| && i < |live|
    ensures Children(live[..len], live[i]) == if i + 1 < len then 1 else 0
  {
    if len > 0 {
      var n := len - 1;
      assert live[..len][..n] == live[..n];
      ChildrenAreNext(live, n, i);
      assert n > 0 ==> live[n].m_parent == live[n - 1];
    }
  }

  class XmlReader {
    /** nsStackCur, from the sentinel's successor to the top. */
    var nsStack: seq<XmlNamespace>
    ghost var live: seq<XmlNamespace>
    ghost var marks: seq<nat>
    /** All nodes this reader has made. */
    ghost var repr: set<XmlNamespace>

    ghost predicate Valid()
      reads this, repr
    {
      && (forall n | n in live :: n in repr)
      && Chained(live) && Proper(|live|, marks) && Pointing(nsStack, live, marks)
      && Refs(live) == RefCounts(|live|, marks, |live|)
    }

    ghost function Now(): Scopes
      reads this
    {
      Scopes(Decls(live), marks)
    }

    constructor ()
      ensures Valid() && Now() == EMPTY && live == [] && repr == {}
    {
      nsStack, live, marks, repr := [], [], [], {};
    }

    /**
     The exact counting equation: the count of a live node is the number of stack items pointing at
     it plus the number of live nodes whose parent it is.
     */
    lemma {:induction false} ExactCounts(n: XmlNamespace)
      requires Valid() && n in live
      ensures n.m_ref == StackItems(nsStack, n) + Children(live, n)
      ensures 0 < n.m_ref
    {
      var i :| 0 <= i < |live| && live[i] == n;
      ItemsAreStackItems(nsStack, live, marks, i);
      ChildrenAreNext(live, |live|, i);
      assert live[..|live|] == live;
      RefsAt(live);
      CountsAt(|live|, marks, |live|);
      if i + 1 == |live| {
        assert marks != [] && marks[|marks| - 1] == i + 1;
      }
    }

    /** While a start tag is being handled: new nodes hang on, the item for them is still to come. */
    ghost predicate Hanging()
      reads this, repr
    {
      && (forall n | n in live :: n in repr)
      && Chained(live) && Pointing(nsStack, live, marks)
      && Refs(live) == RefCounts(|live|, marks, |live|)
    }

    ghost predicate Growing(grown: seq<Decl>)
      reads this, repr
    {
      Hanging() && Decls(live) == grown
    }

    /** new XmlNamespace(p, u, ns), with ns == NULL for the root */
    method Declare(p: Option<string>, u: Option<string>, ns: XmlNamespace?,
        ghost grown: seq<Decl>) returns (n: XmlNamespace)
      requires Growing(grown) && (if ns == null then live == [] else live != [] && live[|live| - 1] == ns)
      modifies this`live, this`repr, if ns == null then {} else {ns}
      ensures live == old(live) + [n] && fresh(n) && repr == old(repr) + {n}
        && Growing(grown + [Decl(OrEmpty(p), OrEmpty(u))])
      ensures marks == old(marks) && nsStack == old(nsStack)
    {
      ghost var before, refs := live, Refs(live);
      RefsAt(before);
      n := new XmlNamespace(p, u, ns);
      HangsOn(nsStack, before, n, refs, marks);
      live, repr := before + [n], repr + {n};
    }

    /** One attribute of a start tag. */
    method DeclareFrom(a: Attribute, ns: XmlNamespace, ghost grown: seq<Decl>) returns (n: XmlNamespace)
      requires Growing(grown) && live != [] && live[|live| - 1] == ns
      modifies this`live, this`repr, ns
      ensures Growing(grown + DeclOf(a)) && live != [] && live[|live| - 1] == n
      ensures old(live) <= live && fresh(repr - old(repr)) && marks == old(marks) && nsStack == old(nsStack)
    {
      n := ns;
      if a.qName == XMLNS {
        n := Declare(None, a.value, ns, grown);
      } else if XMLNS_COLON <= a.qName {
        n := Declare(Some(a.qName[6..]), a.value, ns, grown);
      } else {
        assert grown + [] == grown;
      }
    }

    /** The node to start from: the top of the stack, or a new root. */
    method Bottom() returns (ns: XmlNamespace)
      requires Valid()
      modifies this`live, this`repr
      ensures Growing(Base(old(Now()))) && live != [] && live[|live| - 1] == ns
      ensures fresh(repr - old(repr)) && marks == old(marks) && nsStack == old(nsStack) && old(live) <= live
    {
      if nsStack != [] {
        ns := nsStack[|nsStack| - 1];
      } else {
        ns := Declare(None, None, null, []);
      }
    }

    /** The loop over the attributes of a start tag. */
    method DeclareAll(attrs: seq<Attribute>, ns: XmlNamespace, ghost grown: seq<Decl>) returns (n: XmlNamespace)
      requires Growing(grown) && live != [] && live[|live| - 1] == ns
      modifies this`live, this`repr, repr
      ensures Growing(grown + Declared(attrs)) && live != [] && live[|live| - 1] == n
      ensures fresh(repr - old(repr)) && marks == old(marks) && nsStack == old(nsStack) && old(live) <= live
    {
      n := ns;
      assert grown + [] == grown;
      for i := 0 to |attrs|
        invariant Growing(grown + Declared(attrs[..i])) && live != [] && live[|live| - 1] == n
        invariant fresh(repr - old(repr)) && marks == old(marks) && nsStack == old(nsStack) && old(live) <= live
      {
        DeclaredSnoc(grown, attrs, i);
        n := DeclareFrom(attrs[i], n, grown + Declared(attrs[..i]));
      }
      assert attrs[..|attrs|] == attrs;
    }

    /** The nodes for the declarations of a start tag. */
    method Grow(attrs: seq<Attribute>) returns (ns: XmlNamespace)
      requires Valid()
      modifies this`live, this`repr, repr
      ensures Growing(Base(old(Now())) + Declared(attrs)) && live != [] && live[|live| - 1] == ns
      ensures fresh(repr - old(repr)) && marks == old(marks) && nsStack == old(nsStack) && old(live) <= live
    {
      ghost var s, before, nodes := Now(), live, repr;
      ns := Bottom();
      ghost var between, more := live, repr;
      ns := DeclareAll(attrs, ns, Base(s));
      PrefixTwice(before, between, live);
      GrownTwice(nodes, more, repr);
    }

    /** pushNamespaces: a node for each declaration, and an item for the innermost. */
    method PushNamespaces(attrs: seq<Attribute>) returns (ns: XmlNamespace)
      requires Valid()
      modifies this, repr
      ensures Valid() && Now() == Push(old(Now()), attrs)
      ensures nsStack == old(nsStack) + [ns] && live != [] && live[|live| - 1] == ns
      ensures old(live) <= live && fresh(repr - old(repr))
    {
      ns := Grow(attrs);
      Hold(ns);
    }

    /** The item for a start tag and its reference. */
    method Hold(ns: XmlNamespace)
      requires Hanging() && live != [] && live[|live| - 1] == ns && Proper(Top(marks), marks)
      modifies this`nsStack, this`marks, ns
      ensures Valid() && live == old(live) && repr == old(repr) && marks == old(marks) + [|live|]
        && nsStack == old(nsStack) + [ns]
    {
      ghost var chain := live;
      ns.RefLast(chain);
      CountsHeld(|chain|, marks);
      PointingHeld(nsStack, chain, marks);
      nsStack := nsStack + [ns];
      marks := marks + [|chain|];
    }

    /** popNamespaces; NULL when the stack is empty. */
    method PopNamespaces() returns (ns: XmlNamespace?)
      requires Valid()
      modifies this`nsStack, this`marks
      ensures ns == if old(nsStack) == [] then null else live[|live| - 1]
      ensures old(nsStack) != [] ==>
        nsStack == old(nsStack)[..|old(nsStack)| - 1] && marks == old(marks)[..|old(marks)| - 1] && live != []
      ensures old(nsStack) == [] ==> nsStack == [] && marks == old(marks)
    {
      ns := null;
      if nsStack != [] {
        ns := nsStack[|nsStack| - 1];
        nsStack := nsStack[..|nsStack| - 1];
        marks := marks[..|marks| - 1];
      }
    }

    /** startElementHandler, as far as namespaces go: the URI that is reported. */
    method StartElement(name: string, attrs: seq<Attribute>) returns (uri: Option<string>)
      requires Valid()
      modifies this, repr
      ensures Valid() && Now() == Push(old(Now()), attrs) && old(live) <= live && fresh(repr - old(repr))
      ensures uri == UriFor(Now().chain, name)
    {
      var ns := PushNamespaces(attrs);
      uri := ns.UriForPrefix(name, live);
    }

    /** endElementHandler, on a stack that is not empty. */
    method EndElement(name: string) returns (uri: Option<string>)
      requires Valid() && nsStack != []
      modifies this, repr
      ensures Valid() && Now() == Pop(old(Now())) && live <= old(live) && repr == old(repr)
      ensures uri == UriFor(old(Now()).chain, name)
    {
      ghost var s := Now();
      uri := nsStack[|nsStack| - 1].UriForPrefix(name, live);
      var ns := PopNamespaces();
      Release(ns, s);
    }

    /** The item is gone, and its reference goes. */
    method Release(ns: XmlNamespace, ghost s: Scopes)
      requires (forall n | n in live :: n in repr) && Chained(live) && live != [] && live[|live| - 1] == ns
        && Decls(live) == s.chain
      requires Proper(|s.chain|, s.marks) && s.marks != [] && marks == Pop(s).marks && Pointing(nsStack, live, marks)
      requires Refs(live) == RefCounts(|s.chain|, s.marks, |s.chain|)
      modifies this`live, repr
      ensures Valid() && Now() == Pop(s) && live <= old(live) && repr == old(repr)
    {
      ghost var before := live;
      ReleasedIs(s, Refs(live));
      live := ns.Deref(live);
      PointingShrinks(nsStack, before, live, marks);
    }
  }

  lemma {:induction false} DeclaredSnoc(grown: seq<Decl>, attrs: seq<Attribute>, i: nat)
    requires i < |attrs|
    ensures (grown + Declared(attrs[..i])) + DeclOf(attrs[i]) == grown + Declared(attrs[..i + 1])
  {
    assert attrs[..i + 1][..i] == attrs[..i];
  }

  /** One more item on the last node. */
  lemma {:induction false} CountsHeld(len: nat, marks: seq<nat>)
    requires len > 0
    ensures RefCounts(len, marks + [len], len) == OneMore(RefCounts(len, marks, len))
  {
    assert (marks + [len])[..|marks|] == marks;
    var refs := RefCounts(len, marks, len);
    CountsAt(len, marks, len);
    CountsAre(len, marks + [len], len, OneMore(refs));
  }

  lemma {:induction false} PointingHeld(stack: seq<XmlNamespace>, live: seq<XmlNamespace>, marks: seq<nat>)
    requires Pointing(stack, live, marks) && live != [] && Proper(Top(marks), marks)
    ensures Pointing(stack + [live[|live| - 1]], live, marks + [|live|]) && Proper(|live|, marks + [|live|])
  {
    assert (marks + [|live|])[..|marks|] == marks;
  }

  lemma {:induction false} RefsHeld(live: seq<XmlNamespace>, refs: seq<int>)
    requires live != [] && |refs| == |live|
    requires forall i | 0 <= i < |live| :: live[i].m_ref == if i == |live| - 1 then refs[i] + 1 else refs[i]
    ensures Refs(live) == OneMore(refs)
  {
    RefsAre(live, refs[|live| - 1 := refs[|live| - 1] + 1]);
  }

  lemma {:induction false} PointingShrinks(stack: seq<XmlNamespace>, live: seq<XmlNamespace>, rest: seq<XmlNamespace>,
      marks: seq<nat>)
    requires rest <= live && Chained(live) && Pointing(stack, live, marks) && Proper(|rest|, marks)
    ensures Chained(rest) && Pointing(stack, rest, marks) && Decls(rest) == Decls(live)[..|rest|]
  {
    MarksBelow(|rest|, marks);
    DeclsTake(live, |rest|);
    assert live[..|rest|] == rest;
  }

  lemma {:induction false} PointingGrows(stack: seq<XmlNamespace>, before: seq<XmlNamespace>, n: XmlNamespace,
      marks: seq<nat>)
    requires Pointing(stack, before, marks)
    ensures Pointing(stack, before + [n], marks)
  {
  }

  lemma {:induction false} RefsHung(before: seq<XmlNamespace>, n: XmlNamespace, refs: seq<int>)
    requires |refs| == |before| && n.m_ref == 0
    requires forall i | 0 <= i < |before| :: before[i].m_ref == if i == |before| - 1 then refs[i] + 1 else refs[i]
    ensures Refs(before + [n]) == Hung(refs)
  {
    RefsAre(before + [n], Hung(refs));
  }

  /** A new node on the last one. */
  lemma {:induction false} HangsOn(stack: seq<XmlNamespace>, before: seq<XmlNamespace>, n: XmlNamespace,
      refs: seq<int>, marks: seq<nat>)
    requires Chained(before) && n.depth == |before| && n.m_ref == 0 && |refs| == |before|
    requires n.m_parent == if before == [] then null else before[|before| - 1]
    requires refs == RefCounts(|before|, marks, |before|) && Pointing(stack, before, marks)
    requires forall i | 0 <= i < |before| :: before[i].m_ref == if i == |before| - 1 then refs[i] + 1 else refs[i]
    ensures var after := before + [n];
      && Chained(after) && Decls(after) == Decls(before) + [Decl(n.m_prefix, n.m_uri)] && Pointing(stack, after, marks)
      && Refs(after) == RefCounts(|after|, marks, |after|)
  {
    NodeAdded(before, n);
    CountsHung(|before|, marks);
    RefsHung(before, n, refs);
    PointingGrows(stack, before, n, marks);
  }

  /** The counts after a node has been hung on the chain: its parent, the last one, gets one more. */
  function Hung(refs: seq<int>): seq<int> {
    seq(|refs| + 1, i requires 0 <= i <= |refs| =>
      if i == |refs| then 0 else if i == |refs| - 1 then refs[i] + 1 else refs[i])
  }

  lemma {:induction false} CountsHung(len: nat, marks: seq<nat>)
    requires forall k | 0 <= k < |marks| :: marks[k] <= len
    ensures RefCounts(len + 1, marks, len + 1) == Hung(RefCounts(len, marks, len))
  {
    NoItems(marks, len);
    CountsAt(len, marks, len);
    CountsAre(len + 1, marks, len + 1, Hung(RefCounts(len, marks, len)));
  }

  lemma {:induction false} NodeAdded(before: seq<XmlNamespace>, n: XmlNamespace)
    requires Chained(before) && n.depth == |before|
    requires n.m_parent == if before == [] then null else before[|before| - 1]
    ensures Chained(before + [n]) && Decls(before + [n]) == Decls(before) + [Decl(n.m_prefix, n.m_uri)]
  {
    assert (before + [n])[..|before|] == before;
  }

  // ---- A whole parse ------------------------------------------------

  lemma {:induction false} AlwaysReported(events: seq<Event>, i: nat)
    requires i < |events| && Opens(events, i + 1).Some?
    ensures Reported(events, i).Some?
    ensures events[i].End? ==> After(events, i).marks != []
  {
    if events[i].Start? {
      StartFinds(events, i);
    } else {
      SameAtBothEnds(events, i);
      RunKeepsMarks(events, i);
    }
  }

  /** These are the namespaces reported for the first |uris| events. */
  ghost predicate Reports(events: seq<Event>, uris: seq<Option<string>>) {
    |uris| <= |events| && forall k | 0 <= k < |uris| :: uris[k] == Reported(events, k) && uris[k].Some?
  }

  lemma {:induction false} ReportsSnoc(events: seq<Event>, uris: seq<Option<string>>, uri: Option<string>)
    requires Reports(events, uris) && |uris| < |events| && uri == Reported(events, |uris|) && uri.Some?
    ensures Reports(events, uris + [uri])
  {
  }

  method Handle(reader: XmlReader, events: seq<Event>, i: nat) returns (uri: Option<string>)
    requires reader.Valid() && i < |events| && Opens(events, i + 1).Some? && reader.Now() == After(events, i)
    modifies reader, reader.repr
    ensures reader.Valid() && reader.Now() == After(events, i + 1) && fresh(reader.repr - old(reader.repr))
    ensures old(reader.live) <= reader.live || reader.live <= old(reader.live)
    ensures uri == Reported(events, i) && uri.Some?
  {
    AlwaysReported(events, i);
    match events[i] {
      case Start(name, attrs) => uri := reader.StartElement(name, attrs);
      case End(name) => uri := reader.EndElement(name);
    }
  }

  /** An element with what it contains. */
  datatype Element = Element(name: string, attrs: seq<Attribute>, content: seq<Element>)

  /**
   A whole element leaves the reader exactly as it was, node for node: what its start tags have made
   its end tags have freed. Its two ends report the same namespace.
   */
  method HandleElement(reader: XmlReader, e: Element) returns (uri: Option<string>)
    requires reader.Valid()
    modifies reader, reader.repr
    ensures reader.Valid() && reader.Now() == old(reader.Now()) && reader.live == old(reader.live)
    ensures fresh(reader.repr - old(reader.repr))
    ensures uri == UriFor(Push(old(reader.Now()), e.attrs).chain, e.name)
    decreases e
  {
    ghost var s, before := reader.Now(), reader.live;
    uri := reader.StartElement(e.name, e.attrs);
    HandleContent(reader, e, e.content);
    ghost var within := reader.live;
    var atEnd := reader.EndElement(e.name);
    assert atEnd == uri;
    PushPop(s, e.attrs);
    assert |Decls(before)| == |before| && |Decls(reader.live)| == |reader.live|;
    PrefixKeeps(before, within, reader.live);
  }

  method HandleContent(reader: XmlReader, e: Element, content: seq<Element>)
    requires reader.Valid() && content <= e.content
    modifies reader, reader.repr
    ensures reader.Valid() && reader.Now() == old(reader.Now()) && reader.live == old(reader.live)
      && reader.nsStack == old(reader.nsStack)
    ensures fresh(reader.repr - old(reader.repr))
    decreases e, |content|
  {
    if content != [] {
      var n := |content| - 1;
      HandleContent(reader, e, content[..n]);
      var _ := HandleElement(reader, content[n]);
    }
  }

  /**
   A parse that the content handler stops after `stopAt` events, or not at all. Every element that
   is handled has a namespace, and once all that was opened is closed no node is left.
   */
  method Parse(events: seq<Event>, stopAt: nat) returns (uris: seq<Option<string>>, ghost left: seq<XmlNamespace>)
    requires stopAt <= |events| && Opens(events, stopAt).Some?
    ensures |uris| == stopAt && Reports(events, uris)
    ensures |left| == |After(events, stopAt).chain| && (Opens(events, stopAt) == Some([]) ==> left == [])
  {
    var reader := new XmlReader();
    uris := [];
    for i := 0 to stopAt
      invariant reader.Valid() && reader.Now() == After(events, i) && fresh(reader) && fresh(reader.repr)
      invariant |uris| == i && Reports(events, uris)
    {
      OpensPrefix(events, i + 1, stopAt);
      var uri := Handle(reader, events, i);
      ReportsSnoc(events, uris, uri);
      uris := uris + [uri];
    }
    ChainIsInScope(events, stopAt);
    left := reader.live;
    assert |Decls(left)| == |left|;
  }

  const XHTML: string := "http://www.w3.org/1999/xhtml"

  function Page(): seq<Event> {
    [Start("html", [Attribute("xmlns", Some(XHTML))]), End("html")]
  }

  lemma {:induction false} PageOpens()
    ensures Opens(Page(), 0) == Some([]) && Opens(Page(), 1) == Some([0]) && Opens(Page(), 2) == Some([])
    ensures Closes(Page(), 0, 1)
  {
    assert [] + [0] == [0] && [0][..0] == [];
  }

  /** A document with a default namespace: it is reported at both ends, and nothing is left. */
  method ParsePage() returns (uris: seq<Option<string>>, ghost left: seq<XmlNamespace>)
    ensures uris == [Some(XHTML), Some(XHTML)] && left == []
  {
    PageOpens();
    OwnDeclarationWins(Page(), 0, 0, Decl("", XHTML), 1);
    uris, left := Parse(Page(), 2);
  }
}
