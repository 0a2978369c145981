/**
 Multi-document YAML streams: writing one, splitting one at its marker lines (section 9.1.2 of
 YAML 1.2.2), and reading the CRD objects out of one.
 */
module Manifest {
  import opened Basics
  import opened Api
  import opened Libraries

  // ------------------------------------------------------------- splitting

  /** s begins with this three-character marker, followed by white space or the end. */
  predicate StartsWith(s: string, marker: string) {
    |s| >= 3 && s[..3] == marker && (|s| == 3 || s[3] == '\n' || s[3] == ' ' || s[3] == '\t' || s[3] == '\r')
  }

  /** Three dashes start a document. */
  predicate StartsDocument(s: string) { StartsWith(s, "---") }

  /** Three dots end one; what follows up to the next marker is a document only if there is anything. */
  predicate EndsDocument(s: string) { StartsWith(s, "...") }

  predicate StartsMarker(s: string) { StartsDocument(s) || EndsDocument(s) }

  /** Length of the first line, its newline included. */
  function LineLength(s: string): (n: nat)
    requires s != ""
    ensures 0 < n <= |s|
    ensures forall i :: 0 <= i < n - 1 ==> s[i] != '\n'
    ensures n < |s| ==> s[n - 1] == '\n'
  {
    if s[0] == '\n' || |s| == 1 then 1 else 1 + LineLength(s[1..])
  }

  lemma LinePrepends(s: string, n: nat, tail: string)
    requires n <= |s| && tail <= s[n..]
    ensures s[..n] + tail <= s && s[|s[..n] + tail|..] == s[n..][|tail|..]
  {
    assert s == s[..n] + s[n..];
  }

  /** The lines of s before its first marker line. */
  function Body(s: string): (b: string)
    ensures b <= s
    ensures s[|b|..] == "" || StartsMarker(s[|b|..])
    decreases |s|
  {
    if s == "" || StartsMarker(s) then ""
    else
      var n := LineLength(s);
      var tail := Body(s[n..]);
      LinePrepends(s, n, tail);
      s[..n] + tail
  }

  /**
   What follows a marker: for a start, the rest of its line if there is one, else the next line; for an
   end, always the next line, as its own may hold a comment only.
   */
  function AfterMarker(s: string): (r: string)
    requires StartsMarker(s)
    ensures |r| < |s|
  {
    if EndsDocument(s) then s[LineLength(s)..] else if |s| > 3 && s[3] == '\n' then s[4..] else s[3..]
  }

  /** The documents of a stream that starts with a marker. */
  function Marked(s: string): seq<string>
    requires s == "" || StartsMarker(s)
    decreases |s|
  {
    if s == "" then []
    else
      var rest := AfterMarker(s);
      var body := Body(rest);
      (if EndsDocument(s) && body == "" then [] else [body]) + Marked(rest[|body|..])
  }

  /** The documents of a stream; text before the first marker is a document of its own. */
  function Documents(s: string): seq<string> {
    var bare := Body(s);
    (if bare == "" then [] else [bare]) + Marked(s[|bare|..])
  }

  // --------------------------------------------------------------- writing

  const MARKER := "---\n"

  function Stream(contents: seq<string>): (s: string)
    ensures s == "" || StartsMarker(s)
  {
    if contents == [] then "" else MARKER + contents[0] + Stream(contents[1..])
  }

  lemma {:induction false} StreamAppend(a: seq<string>, b: seq<string>)
    ensures Stream(a + b) == Stream(a) + Stream(b)
  {
    if a == [] {
      assert a + b == b;
    } else {
      assert (a + b)[1..] == a[1..] + b;
      StreamAppend(a[1..], b);
      assert MARKER + a[0] + (Stream(a[1..]) + Stream(b)) == MARKER + a[0] + Stream(a[1..]) + Stream(b);
    }
  }

  // ------------------------------------------------------------ round trip

  predicate LineStart(s: string, i: nat) { i < |s| && (i == 0 || s[i - 1] == '\n') }

  /** No line of s is a marker line. */
  predicate MarkerFree(s: string) {
    forall i :: 0 <= i < |s| && LineStart(s, i) ==> !StartsMarker(s[i..])
  }

  predicate Terminated(s: string) { s == "" || s[|s| - 1] == '\n' }

  /** Every content is free of marker lines; every content but the last ends its last line. */
  predicate Separable(contents: seq<string>) {
    forall i :: 0 <= i < |contents| ==>
      MarkerFree(contents[i]) && (i < |contents| - 1 ==> Terminated(contents[i]))
  }

  lemma {:induction false} LineLengthPrefix(c: string, t: string)
    requires c != "" && (Terminated(c) || t == "")
    ensures LineLength(c + t) == LineLength(c)
  {
    if t == "" {
      assert c + t == c;
    } else if c[0] != '\n' {
      assert |c| > 1;
      assert (c + t)[1..] == c[1..] + t;
      LineLengthPrefix(c[1..], t);
    }
  }

  lemma MarkerOfPrefix(c: string, t: string)
    requires c != "" && (Terminated(c) || t == "")
    ensures StartsMarker(c + t) ==> StartsMarker(c)
  {
    if StartsMarker(c + t) {
      if t == "" {
        assert c + t == c;
      } else {
        assert c[|c| - 1] == (c + t)[|c| - 1];
        assert (c + t)[0] == (c + t)[..3][0] && (c + t)[1] == (c + t)[..3][1] && (c + t)[2] == (c + t)[..3][2];
        assert c[..3] == (c + t)[..3];
      }
    }
  }

  lemma MarkerFreeTail(c: string, n: nat)
    requires MarkerFree(c) && n < |c| && LineStart(c, n)
    ensures MarkerFree(c[n..])
  {
    forall i | 0 <= i < |c[n..]| && LineStart(c[n..], i) ensures !StartsMarker(c[n..][i..]) {
      assert c[n..][i..] == c[n + i..];
      assert LineStart(c, n + i);
    }
  }

  lemma SliceConcat(c: string, t: string, n: nat)
    requires n <= |c|
    ensures (c + t)[..n] == c[..n] && (c + t)[n..] == c[n..] + t && c == c[..n] + c[n..]
  {
  }

  lemma BodyStep(s: string)
    requires s != "" && !StartsMarker(s)
    ensures Body(s) == s[..LineLength(s)] + Body(s[LineLength(s)..])
  {
  }

  lemma FirstLineOfContent(c: string, t: string)
    requires c != "" && MarkerFree(c) && (Terminated(c) || t == "")
    ensures !StartsMarker(c + t) && LineLength(c + t) == LineLength(c)
    ensures MarkerFree(c[LineLength(c)..]) && (Terminated(c[LineLength(c)..]) || t == "")
  {
    assert LineStart(c, 0) && c[0..] == c;
    MarkerOfPrefix(c, t);
    LineLengthPrefix(c, t);
    var n := LineLength(c);
    if n < |c| {
      MarkerFreeTail(c, n);
    }
  }

  lemma {:induction false} BodyOfContent(c: string, t: string)
    requires MarkerFree(c) && (Terminated(c) || t == "") && (t == "" || StartsMarker(t))
    ensures Body(c + t) == c
    decreases |c|
  {
    if c == "" {
      assert c + t == t;
    } else {
      var n := LineLength(c);
      FirstLineOfContent(c, t);
      BodyStep(c + t);
      SliceConcat(c, t, n);
      BodyOfContent(c[n..], t);
    }
  }

  lemma StreamHead(c: string, t: string)
    ensures StartsDocument(MARKER + c + t) && !EndsDocument(MARKER + c + t) && AfterMarker(MARKER + c + t) == c + t
  {
    var s := MARKER + c + t;
    assert s[..3] == "---" && s[0] == '-' && "..."[0] == '.';
    assert s[4..] == c + t;
  }

  lemma MarkedStep(s: string, rest: string, body: string, tail: string)
    requires StartsDocument(s) && !EndsDocument(s) && AfterMarker(s) == rest
    requires Body(rest) == body && |body| <= |rest| && rest[|body|..] == tail
    ensures (tail == "" || StartsMarker(tail)) && Marked(s) == [body] + Marked(tail)
  {
  }

  lemma SeparableTail(contents: seq<string>)
    requires contents != [] && Separable(contents)
    ensures Separable(contents[1..])
    ensures MarkerFree(contents[0]) && (Stream(contents[1..]) == "" || Terminated(contents[0]))
  {
    var rest := contents[1..];
    assert forall i :: 0 <= i < |rest| ==> rest[i] == contents[i + 1];
    assert rest == [] ==> Stream(rest) == "";
  }

  lemma StreamCons(contents: seq<string>)
    requires contents != []
    ensures Stream(contents) == MARKER + contents[0] + Stream(contents[1..])
  {
  }

  /** The first document of a stream that begins with this content, and the stream that remains. */
  lemma MarkedHead(c: string, t: string)
    requires MarkerFree(c) && (t == "" || Terminated(c)) && (t == "" || StartsMarker(t))
    ensures StartsMarker(MARKER + c + t) && Marked(MARKER + c + t) == [c] + Marked(t)
  {
    StreamHead(c, t);
    BodyOfContent(c, t);
    SliceConcat(c, t, |c|);
    MarkedStep(MARKER + c + t, c + t, c, t);
  }

  lemma {:induction false} StreamSplits(contents: seq<string>)
    requires Separable(contents)
    ensures Marked(Stream(contents)) == contents
  {
    if contents != [] {
      var c, rest := contents[0], contents[1..];
      SeparableTail(contents);
      StreamSplits(rest);
      StreamCons(contents);
      MarkedHead(c, Stream(rest));
      assert [c] + rest == contents;
    }
  }

  lemma {:induction false} BodyTerminated(s: string)
    ensures |Body(s)| < |s| ==> Terminated(Body(s))
    decreases |s|
  {
    if s != "" && !StartsMarker(s) {
      var n := LineLength(s);
      BodyTerminated(s[n..]);
      BodyStep(s);
    }
  }

  lemma MarkerExtends(b: string, s: string)
    requires b != "" && b <= s && (|b| == |s| || Terminated(b))
    ensures StartsMarker(b) ==> StartsMarker(s)
  {
    if StartsMarker(b) {
      assert s[..3] == b[..3];
      assert b[2] == b[..3][2];
    }
  }

  /** A line start inside `line + tail`, past the single line `line`, is one of `tail`. */
  lemma LaterLineStart(line: string, tail: string, i: nat)
    requires line != "" && forall k :: 0 <= k < |line| - 1 ==> line[k] != '\n'
    requires i > 0 && LineStart(line + tail, i)
    ensures i >= |line| && LineStart(tail, i - |line|) && (line + tail)[i..] == tail[i - |line|..]
  {
    var b := line + tail;
    assert i - 1 < |line| ==> b[i - 1] == line[i - 1];
    assert i > |line| ==> b[i - 1] == tail[i - |line| - 1];
  }

  lemma {:induction false} BodyIsMarkerFree(s: string)
    ensures MarkerFree(Body(s))
    decreases |s|
  {
    if s != "" && !StartsMarker(s) {
      var n := LineLength(s);
      var b, line, tail := Body(s), s[..n], Body(s[n..]);
      BodyIsMarkerFree(s[n..]);
      BodyStep(s);
      BodyTerminated(s);
      forall i | 0 <= i < |b| && LineStart(b, i) ensures !StartsMarker(b[i..]) {
        if i == 0 {
          assert b[0..] == b;
          MarkerExtends(b, s);
        } else {
          LaterLineStart(line, tail, i);
        }
      }
    }
  }

  lemma {:induction false} DocumentsAreSeparable(s: string)
    requires s == "" || StartsMarker(s)
    ensures Separable(Marked(s))
    decreases |s|
  {
    if s != "" {
      var rest := AfterMarker(s);
      var body := Body(rest);
      BodyIsMarkerFree(rest);
      BodyTerminated(rest);
      var tail := rest[|body|..];
      DocumentsAreSeparable(tail);
      var all := Marked(s);
      if EndsDocument(s) && body == "" {
        assert all == Marked(tail);
      } else {
        assert all == [body] + Marked(tail);
        forall i | 0 <= i < |all| ensures MarkerFree(all[i]) && (i < |all| - 1 ==> Terminated(all[i])) {
          if i > 0 {
            assert all[i] == Marked(tail)[i - 1];
          }
        }
      }
    }
  }

  /**
   Splitting a written stream gives back the contents exactly when they are separable: a content
   with a marker line of its own, or one that is not the last and lacks its final newline, is
   not recovered.
   */
  lemma RoundTripExactly(contents: seq<string>)
    ensures Documents(Stream(contents)) == contents <==> Separable(contents)
  {
    var s := Stream(contents);
    assert Body(s) == "";
    assert s[0..] == s;
    assert Documents(s) == Marked(s);
    if Separable(contents) {
      StreamSplits(contents);
    }
    if Marked(s) == contents {
      DocumentsAreSeparable(s);
    }
  }

  // --------------------------------------------------------------- reading

  function KeepCrds(objects: seq<Object>): seq<Object> {
    if objects == [] then []
    else
      var last := objects[|objects| - 1];
      KeepCrds(objects[..|objects| - 1]) + (if last.kind == CRD_KIND then [last] else [])
  }

  /** Every object of every document, when every document parses. */
  function Decode(lib: Lib, documents: seq<string>): Option<seq<Object>> {
    if documents == [] then Some([])
    else match lib.parseDocument(documents[0])
      case None => None
      case Some(objects) =>
        match Decode(lib, documents[1..])
        case None => None
        case Some(rest) => Some(objects + rest)
  }

  /** The CRDs of a manifest. */
  function Crds(lib: Lib, content: string): Option<seq<Object>> {
    match Decode(lib, Documents(content))
    case None => None
    case Some(objects) => Some(KeepCrds(objects))
  }

  method ReadObjects(lib: Lib, content: string) returns (r: Option<seq<Object>>)
    ensures r == Crds(lib, content)
  {
    var objects := Decode(lib, Documents(content));
    if objects.None? {
      return None;
    }
    var crds: seq<Object> := [];
    for i := 0 to |objects.value|
      invariant crds == KeepCrds(objects.value[..i])
    {
      var obj := objects.value[i];
      assert objects.value[..i + 1][..i] == objects.value[..i];
      if obj.kind == CRD_KIND {
        crds := crds + [obj];
      }
    }
    assert objects.value[..|objects.value|] == objects.value;
    return Some(crds);
  }

  /** The positions of the CRDs of a list, in order. */
  function CrdPositions(objects: seq<Object>): seq<nat> {
    if objects == [] then []
    else
      var n := |objects| - 1;
      CrdPositions(objects[..n]) + (if objects[n].kind == CRD_KIND then [n] else [])
  }

  /** The filter keeps exactly the CRDs, each as often as it occurs, in their original order. */
  lemma {:induction false} KeepCrdsExactly(objects: seq<Object>)
    ensures var at := CrdPositions(objects);
      && |KeepCrds(objects)| == |at|
      && (forall j :: 0 <= j < |at| ==> at[j] < |objects| && KeepCrds(objects)[j] == objects[at[j]])
      && (forall i, j :: 0 <= i < j < |at| ==> at[i] < at[j])
      && (forall p :: 0 <= p < |objects| ==> (p in at <==> objects[p].kind == CRD_KIND))
  {
    if objects != [] {
      KeepCrdsExactly(objects[..|objects| - 1]);
    }
  }

  lemma {:induction false} KeepCrdsMembers(objects: seq<Object>, o: Object)
    ensures o in KeepCrds(objects) <==> o in objects && o.kind == CRD_KIND
  {
    if objects != [] {
      var front, last := objects[..|objects| - 1], objects[|objects| - 1];
      assert objects == front + [last];
      KeepCrdsMembers(front, o);
    }
  }

  /** Decoding fails exactly when some document does not parse; otherwise it yields the objects of all documents. */
  lemma {:induction false} DecodesExactly(lib: Lib, documents: seq<string>, o: Object)
    ensures Decode(lib, documents).None? <==> exists d :: d in documents && lib.parseDocument(d).None?
    ensures Decode(lib, documents).Some? ==>
      (o in Decode(lib, documents).value
       <==> exists d :: d in documents && lib.parseDocument(d).Some? && o in lib.parseDocument(d).value)
  {
    if documents != [] {
      DecodesExactly(lib, documents[1..], o);
      assert documents[0] in documents;
      assert forall d :: d in documents <==> d == documents[0] || d in documents[1..];
    }
  }

  /** The objects of two lists of documents are those of the first, and then those of the second. */
  lemma {:induction false} DecodesInOrder(lib: Lib, a: seq<string>, b: seq<string>)
    ensures var first, second := Decode(lib, a), Decode(lib, b);
      Decode(lib, a + b) == if first.Some? && second.Some? then Some(first.value + second.value) else None
  {
    if a == [] {
      assert a + b == b;
      if Decode(lib, b).Some? {
        assert [] + Decode(lib, b).value == Decode(lib, b).value;
      }
    } else {
      assert (a + b)[1..] == a[1..] + b;
      DecodesInOrder(lib, a[1..], b);
      var head, first, second := lib.parseDocument(a[0]), Decode(lib, a[1..]), Decode(lib, b);
      if head.Some? && first.Some? && second.Some? {
        assert head.value + (first.value + second.value) == head.value + first.value + second.value;
      }
    }
  }

  lemma {:induction false} KeepsInOrder(a: seq<Object>, b: seq<Object>)
    ensures KeepCrds(a + b) == KeepCrds(a) + KeepCrds(b)
  {
    if b == [] {
      assert a + b == a;
    } else {
      var front := b[..|b| - 1];
      assert (a + b)[..|a + b| - 1] == a + front;
      KeepsInOrder(a, front);
    }
  }

  /**
   The CRDs of two lists of documents, in the order of the documents, and each as often as it stands in
   them; those of a single document are its CRDs in its order.
   */
  lemma CrdsInOrder(lib: Lib, a: seq<string>, b: seq<string>, d: string)
    requires Decode(lib, a).Some? && Decode(lib, b).Some?
    ensures Decode(lib, a + b).Some?
    ensures KeepCrds(Decode(lib, a + b).value) == KeepCrds(Decode(lib, a).value) + KeepCrds(Decode(lib, b).value)
    ensures Decode(lib, [d]) == lib.parseDocument(d)
  {
    DecodesInOrder(lib, a, b);
    KeepsInOrder(Decode(lib, a).value, Decode(lib, b).value);
    assert [d][1..] == [];
    if lib.parseDocument(d).Some? {
      assert lib.parseDocument(d).value + [] == lib.parseDocument(d).value;
    }
  }

  /**
   Reading fails exactly when some document of the manifest does not parse; otherwise what is read
   for applying is exactly what stands in some document and is of CRD kind.
   */
  lemma ReadsExactlyTheCrds(lib: Lib, content: string, o: Object)
    ensures Crds(lib, content).None? <==> exists d :: d in Documents(content) && lib.parseDocument(d).None?
    ensures Crds(lib, content).Some? ==>
      (o in Crds(lib, content).value
       <==> o.kind == CRD_KIND
            && exists d :: d in Documents(content) && lib.parseDocument(d).Some? && o in lib.parseDocument(d).value)
  {
    DecodesExactly(lib, Documents(content), o);
    if Crds(lib, content).Some? {
      KeepCrdsMembers(Decode(lib, Documents(content)).value, o);
    }
  }
}
