/** The release manifest: a plain split on a separator, and the objects the pieces decode to. */
module Manifest {
  import opened Wrappers
  import opened Resources
  import opened Selections

  const SEPARATOR := "\n---"

  /** The separator occurs in s at position i. */
  predicate At(s: string, i: int) {
    0 <= i && i + 4 <= |s| && s[i] == '\n' && s[i + 1] == '-' && s[i + 2] == '-' && s[i + 3] == '-'
  }

  ghost predicate Clean(s: string) {
    forall i :: !At(s, i)
  }

  /** strings.Index(s, SEPARATOR), looking from position i on. */
  function IndexFrom(s: string, i: nat): (r: int)
    requires i <= |s|
    ensures r == -1 ==> forall j :: i <= j ==> !At(s, j)
    ensures r != -1 ==> i <= r && At(s, r) && forall j :: i <= j < r ==> !At(s, j)
    decreases |s| - i
  {
    if At(s, i) then i
    else if i == |s| then -1
    else IndexFrom(s, i + 1)
  }

  function Index(s: string): (r: int)
    ensures r == -1 <==> Clean(s)
    ensures r != -1 ==> At(s, r) && forall j :: j < r ==> !At(s, j)
  {
    IndexFrom(s, 0)
  }

  function Split(s: string): (docs: seq<string>)
    ensures |docs| > 0
    decreases |s|
  {
    var i := Index(s);
    if i == -1 then [s] else [s[..i]] + Split(s[i + 4..])
  }

  /** The append loop of splitYAMLDocuments. */
  method SplitYAMLDocuments(s: string) returns (docs: seq<string>)
    ensures docs == Split(s)
  {
    docs := [];
    var cur := s;
    while true
      invariant docs + Split(cur) == Split(s)
      decreases |cur|
    {
      var idx := Index(cur);
      if idx == -1 {
        docs := docs + [cur];
        break;
      }
      assert docs + Split(cur) == (docs + [cur[..idx]]) + Split(cur[idx + 4..]);
      docs := docs + [cur[..idx]];
      cur := cur[idx + 4..];
    }
  }

  /** Joining the pieces gives the manifest back, byte for byte. */
  lemma {:induction false} JoinOfSplit(s: string)
    ensures Join(Split(s), SEPARATOR) == s
    decreases |s|
  {
    var i := Index(s);
    if i != -1 {
      var rest := s[i + 4..];
      JoinOfSplit(rest);
      assert Split(s)[1..] == Split(rest);
      assert s == s[..i] + SEPARATOR + rest;
    }
  }

  /** No piece contains the separator. */
  lemma {:induction false} PiecesAreClean(s: string)
    ensures forall p :: p in Split(s) ==> Clean(p)
    decreases |s|
  {
    var i := Index(s);
    if i != -1 {
      PiecesAreClean(s[i + 4..]);
      forall j ensures !At(s[..i], j) {
        assert At(s[..i], j) ==> At(s, j);
      }
    }
  }

  /** The number of positions at which the separator occurs. */
  function Occurrences(s: string): nat {
    if s == "" then 0 else (if At(s, 0) then 1 else 0) + Occurrences(s[1..])
  }

  lemma {:induction false} SkipTo(s: string, i: nat)
    requires i <= |s| && forall j :: 0 <= j < i ==> !At(s, j)
    ensures Occurrences(s) == Occurrences(s[i..])
  {
    if i > 0 {
      forall j | 0 <= j < i - 1 ensures !At(s[1..], j) {
        assert At(s[1..], j) ==> At(s, j + 1);
      }
      SkipTo(s[1..], i - 1);
      assert s[1..][i - 1..] == s[i..];
    } else {
      assert s[i..] == s;
    }
  }

  /** There is exactly one piece more than there are occurrences. */
  lemma {:induction false} PieceCount(s: string)
    ensures |Split(s)| == Occurrences(s) + 1
    decreases |s|
  {
    var i := Index(s);
    if i == -1 {
      SkipTo(s, |s|);
    } else {
      SkipTo(s, i);
      var t := s[i..];
      forall j | 0 <= j < 3 ensures !At(t[1..], j) {
        assert t[1..][j] == s[i + 1 + j];
      }
      SkipTo(t[1..], 3);
      assert t[1..][3..] == s[i + 4..];
      PieceCount(s[i + 4..]);
    }
  }

  /** The first occurrence in p + SEPARATOR + q is the one written there: none can straddle the boundary. */
  lemma FirstAfterClean(p: string, q: string)
    requires Clean(p)
    ensures Index(p + SEPARATOR + q) == |p|
  {
    var s := p + SEPARATOR + q;
    assert At(s, |p|);
    forall j | 0 <= j < |p| ensures !At(s, j) {
      assert s[|p|] == '\n';
      assert j + 4 <= |p| && At(s, j) ==> At(p, j);
    }
  }

  /** Splitting a join returns the pieces, for every non-empty list of separator-free pieces. */
  lemma {:induction false} SplitOfJoin(docs: seq<string>)
    requires docs != [] && forall d :: d in docs ==> Clean(d)
    ensures Split(Join(docs, SEPARATOR)) == docs
  {
    if |docs| > 1 {
      var rest := Join(docs[1..], SEPARATOR);
      var s := docs[0] + SEPARATOR + rest;
      SplitOfJoin(docs[1..]);
      FirstAfterClean(docs[0], rest);
      assert s[..|docs[0]|] == docs[0];
      assert s[|docs[0]| + 4..] == rest;
    }
  }

  /** What the decoder finds in one document. */
  datatype KObject = KObject(group: string, version: string, kind: string, namespace: string, name: string)

  /** A decoding error and a document without a kind are both None. */
  type Decoder = string -> Option<KObject>

  /** The runes unicode.IsSpace accepts. */
  predicate IsSpace(c: char) {
    c in "\t\n\r " || c as int in {0x0B, 0x0C, 0x85, 0xA0, 0x1680, 0x2028, 0x2029, 0x202F, 0x205F, 0x3000}
    || 0x2000 <= c as int <= 0x200A
  }

  /** strings.TrimSpace leaves nothing. */
  predicate Blank(s: string) {
    forall i :: 0 <= i < |s| ==> IsSpace(s[i])
  }

  function ObjectOf(decode: Decoder, doc: string): Option<KObject> {
    if Blank(doc) then None else decode(doc)
  }

  /** Filter-map of the decoder over a list of documents. */
  function Objects(decode: Decoder, docs: seq<string>): seq<KObject> {
    if docs == [] then []
    else
      var o := ObjectOf(decode, docs[0]);
      (if o.Some? then [o.value] else []) + Objects(decode, docs[1..])
  }

  lemma {:induction false} ObjectsAppend(decode: Decoder, a: seq<string>, b: seq<string>)
    ensures Objects(decode, a + b) == Objects(decode, a) + Objects(decode, b)
  {
    if a == [] {
      assert a + b == b;
    } else {
      assert (a + b)[1..] == a[1..] + b;
      ObjectsAppend(decode, a[1..], b);
    }
  }

  function Parse(decode: Decoder, manifest: string): seq<KObject> {
    Objects(decode, Split(manifest))
  }

  /** The append loop of parseManifestToObjects; its error result is always nil. */
  method ParseManifestToObjects(decode: Decoder, manifest: string) returns (objs: seq<KObject>, failed: bool)
    ensures objs == Parse(decode, manifest)
    ensures !failed
  {
    var parts := SplitYAMLDocuments(manifest);
    objs, failed := [], false;
    for i := 0 to |parts|
      invariant objs == Objects(decode, parts[..i])
    {
      assert parts[..i + 1] == parts[..i] + [parts[i]];
      ObjectsAppend(decode, parts[..i], [parts[i]]);
      if Blank(parts[i]) {
        continue;
      }
      var u := decode(parts[i]);
      if u.None? {
        continue;
      }
      objs := objs + [u.value];
    }
    assert parts[..|parts|] == parts;
  }

  /** Parsing a joined manifest is filter-map of the decoder over the documents joined. */
  lemma ParseOfJoin(decode: Decoder, docs: seq<string>)
    requires docs != [] && forall d :: d in docs ==> Clean(d)
    ensures Parse(decode, Join(docs, SEPARATOR)) == Objects(decode, docs)
  {
    SplitOfJoin(docs);
  }

  /** Which documents give an object, said of the pieces and the decoder alone: those with something other than white
      space in them that decode; one object each, in the order of the pieces. */
  lemma ParseIsExact(decode: Decoder, manifest: string) returns (idx: seq<nat>)
    ensures Ascending(idx, |Split(manifest)|) && |Parse(decode, manifest)| == |idx|
    ensures forall k :: 0 <= k < |idx| ==> decode(Split(manifest)[idx[k]]) == Some(Parse(decode, manifest)[k])
    ensures forall i :: 0 <= i < |Split(manifest)| ==>
      var d := Split(manifest)[i];
      i in idx <==> (exists j :: 0 <= j < |d| && !IsSpace(d[j])) && decode(d).Some?
  {
    var docs := Split(manifest);
    idx := FilterPicks(docs, Marks(docs, d => ObjectOf(decode, d).Some?));
    ObjectsFilter(decode, docs);
  }

  lemma {:induction false} ObjectsFilter(decode: Decoder, docs: seq<string>)
    ensures var picked := Filter(docs, Marks(docs, d => ObjectOf(decode, d).Some?));
      && |Objects(decode, docs)| == |picked|
      && forall k :: 0 <= k < |picked| ==> ObjectOf(decode, picked[k]) == Some(Objects(decode, docs)[k])
  {
    if docs != [] {
      FilterStep(docs, d => ObjectOf(decode, d).Some?);
      ObjectsFilter(decode, docs[1..]);
      if ObjectOf(decode, docs[0]).Some? {
        assert Objects(decode, docs)[1..] == Objects(decode, docs[1..]);
      }
    }
  }

  /** An object is parsed iff some piece that is not blank decodes to it. */
  lemma ParseMembers(decode: Decoder, manifest: string, o: KObject)
    ensures o in Parse(decode, manifest) <==>
      exists d :: d in Split(manifest) && (exists i :: 0 <= i < |d| && !IsSpace(d[i])) && decode(d) == Some(o)
  {
    hide Split, Parse, IsSpace;
    var idx := ParseIsExact(decode, manifest);
    var docs, objs := Split(manifest), Parse(decode, manifest);
    if o in objs {
      var k :| 0 <= k < |objs| && objs[k] == o;
      assert idx[k] in idx && docs[idx[k]] in docs;
    }
    if d :| d in docs && (exists i :: 0 <= i < |d| && !IsSpace(d[i])) && decode(d) == Some(o) {
      var i :| 0 <= i < |docs| && docs[i] == d;
      var k :| 0 <= k < |idx| && idx[k] == i;
      assert objs[k] == o;
    }
  }

  /** The separator is a newline and three dashes. */
  lemma SeparatorAt(s: string, i: int)
    ensures At(s, i) <==> 0 <= i <= |s| - 4 && s[i..i + 4] == "\n---"
    ensures SEPARATOR == "\n---"
  {
    if 0 <= i <= |s| - 4 {
      assert s[i..i + 4] == [s[i], s[i + 1], s[i + 2], s[i + 3]];
    }
  }

  /** White space is what Unicode calls so, by code point. */
  lemma SpacesByCode(c: char)
    ensures var n := c as int;
      IsSpace(c) <==> 9 <= n <= 13 || n == 32 || n == 133 || n == 160 || n == 5760 || 8192 <= n <= 8202
                      || n == 8232 || n == 8233 || n == 8239 || n == 8287 || n == 12288
  {
  }
}
