/** Files listed by name: the order Python's `sorted` gives them, and the byte string whose digest
    names their content.  A name is the UTF-8 form of a path, whose byte order is its text order. */
module Listings {
  type Byte = x: int | 0 <= x < 256

  type Name = seq<Byte>

  datatype Doc = Doc(name: Name, content: seq<Byte>)

  // ---------------------------------------------------------------- order

  predicate Before(a: seq<int>, b: seq<int>) {
    b != [] && (a == [] || a[0] < b[0] || (a[0] == b[0] && Before(a[1..], b[1..])))
  }

  lemma {:induction false} BeforeIsTotal(a: seq<int>, b: seq<int>)
    ensures a == b || Before(a, b) || Before(b, a)
    ensures !(Before(a, b) && (a == b || Before(b, a)))
  {
    if a != [] && b != [] && a[0] == b[0] {
      BeforeIsTotal(a[1..], b[1..]);
      assert a == [a[0]] + a[1..] && b == [b[0]] + b[1..];
    }
  }

  lemma {:induction false} BeforeIsTransitive(a: seq<int>, b: seq<int>, c: seq<int>)
    requires Before(a, b) && Before(b, c)
    ensures Before(a, c)
  {
    if a != [] && a[0] == b[0] && b[0] == c[0] {
      BeforeIsTransitive(a[1..], b[1..], c[1..]);
    }
  }

  predicate Ordered(s: seq<Doc>) {
    forall i, j | 0 <= i < j < |s| :: Before(s[i].name, s[j].name)
  }

  function Insert(d: Doc, s: seq<Doc>): (r: seq<Doc>)
    ensures multiset(r) == multiset(s) + multiset{d}
  {
    if s == [] then [d]
    else if Before(d.name, s[0].name) then [d] + s
    else
      assert multiset(s) == multiset{s[0]} + multiset(s[1..]) by { assert s == [s[0]] + s[1..]; }
      [s[0]] + Insert(d, s[1..])
  }

  function Sort(s: seq<Doc>): (r: seq<Doc>)
    ensures multiset(r) == multiset(s)
  {
    if s == [] then []
    else
      assert multiset(s) == multiset{s[0]} + multiset(s[1..]) by { assert s == [s[0]] + s[1..]; }
      Insert(s[0], Sort(s[1..]))
  }

  lemma {:induction false} InsertKeepsOrder(d: Doc, s: seq<Doc>)
    requires Ordered(s) && forall e <- s :: e.name != d.name
    ensures Ordered(Insert(d, s))
  {
    var r := Insert(d, s);
    if s != [] {
      BeforeIsTotal(d.name, s[0].name);
      if Before(d.name, s[0].name) {
        forall j | 1 <= j < |s|
          ensures Before(d.name, s[j].name)
        {
          BeforeIsTransitive(d.name, s[0].name, s[j].name);
        }
      } else {
        InsertKeepsOrder(d, s[1..]);
        forall e <- Insert(d, s[1..])
          ensures Before(s[0].name, e.name)
        {
          assert e in multiset(s[1..]) + multiset{d};
          if e != d {
            assert e in s[1..];
          }
        }
      }
    }
  }

  predicate DistinctNames(s: seq<Doc>) {
    forall i, j | 0 <= i < j < |s| :: s[i].name != s[j].name
  }

  lemma {:induction false} SortOrders(s: seq<Doc>)
    requires DistinctNames(s)
    ensures Ordered(Sort(s)) && |Sort(s)| == |s| && forall d :: d in Sort(s) <==> d in s
  {
    SortKeeps(s);
    if s != [] {
      SortOrders(s[1..]);
      forall e <- Sort(s[1..])
        ensures e.name != s[0].name
      {
        assert e in s[1..];
      }
      InsertKeepsOrder(s[0], Sort(s[1..]));
    }
  }

  lemma SortKeeps(s: seq<Doc>)
    ensures |Sort(s)| == |s| && forall d :: d in Sort(s) <==> d in s
  {
    assert |multiset(Sort(s))| == |Sort(s)| && |multiset(s)| == |s|;
    assert forall d :: d in Sort(s) <==> d in multiset(Sort(s));
    assert forall d :: d in s <==> d in multiset(s);
  }

  /** The same files have one listing, whatever the order they were met in. */
  lemma {:induction false} OneListing(a: seq<Doc>, b: seq<Doc>)
    requires Ordered(a) && Ordered(b) && forall d :: d in a <==> d in b
    ensures a == b
  {
    FirstIsIn(a);
    FirstIsIn(b);
    if a != [] {
      FirstsAgree(a, b);
      OnlyOnce(a);
      OnlyOnce(b);
      assert a == [a[0]] + a[1..] && b == [b[0]] + b[1..];
      forall d
        ensures d in a[1..] <==> d in b[1..]
      {
        assert d in a <==> d in b;
      }
      OneListing(a[1..], b[1..]);
    }
  }

  lemma FirstIsIn(s: seq<Doc>)
    ensures s != [] ==> s[0] in s
  {
  }

  lemma OnlyOnce(a: seq<Doc>)
    requires Ordered(a) && a != []
    ensures a[0] !in a[1..]
  {
    if a[0] in a[1..] {
      var i :| 1 <= i < |a| && a[i] == a[0];
      BeforeIsTotal(a[0].name, a[i].name);
    }
  }

  lemma FirstsAgree(a: seq<Doc>, b: seq<Doc>)
    requires Ordered(a) && Ordered(b) && a != [] && b != [] && a[0] in b && b[0] in a
    ensures a[0] == b[0]
  {
    var i, j :| 0 <= i < |b| && b[i] == a[0] && 0 <= j < |a| && a[j] == b[0];
    if i > 0 && j > 0 {
      BeforeIsTotal(a[0].name, b[0].name);
    }
  }

  // ---------------------------------------------------------------- the digested bytes

  /** Each file with its own digest in place of its content. */
  function Digests(hash: seq<Byte> -> seq<Byte>, docs: seq<Doc>): (r: seq<Doc>)
    ensures |r| == |docs| && forall i | 0 <= i < |docs| :: r[i] == Doc(docs[i].name, hash(docs[i].content))
  {
    seq(|docs|, i requires 0 <= i < |docs| => Doc(docs[i].name, hash(docs[i].content)))
  }

  /** What the content digest is fed: every name, a NUL, and the file's own digest. */
  function Encode(files: seq<Doc>): seq<Byte> {
    if files == [] then []
    else Encode(files[..|files| - 1]) + files[|files| - 1].name + [0] + files[|files| - 1].content
  }

  lemma {:induction false} EncodeFirst(files: seq<Doc>)
    requires files != []
    ensures Encode(files) == files[0].name + [0] + files[0].content + Encode(files[1..])
  {
    if |files| > 1 {
      EncodeFirst(files[..|files| - 1]);
      assert files[..|files| - 1][1..] == files[1..][..|files| - 2];
    }
  }

  predicate Decodable(files: seq<Doc>) {
    forall f <- files :: 0 !in f.name && |f.content| == 32
  }

  /** Equal byte strings come from equal lists: a name ends at its NUL, a digest after 32 bytes. */
  lemma {:induction false} EncodeIsInjective(a: seq<Doc>, b: seq<Doc>)
    requires Decodable(a) && Decodable(b) && Encode(a) == Encode(b)
    ensures a == b
  {
    if a != [] && b != [] {
      PeelOne(a, b);
      EncodeIsInjective(a[1..], b[1..]);
      assert a == [a[0]] + a[1..] && b == [b[0]] + b[1..];
    } else {
      EncodingsAreNotEmpty(a);
      EncodingsAreNotEmpty(b);
    }
  }

  lemma EncodingsAreNotEmpty(files: seq<Doc>)
    ensures files != [] ==> Encode(files) != []
  {
  }

  lemma PeelOne(a: seq<Doc>, b: seq<Doc>)
    requires a != [] && b != [] && Decodable(a) && Decodable(b) && Encode(a) == Encode(b)
    ensures a[0] == b[0] && Encode(a[1..]) == Encode(b[1..])
  {
    EncodeFirst(a);
    EncodeFirst(b);
    assert a[0] in a && b[0] in b;
    RecordsEnd(a[0], Encode(a[1..]), b[0], Encode(b[1..]));
  }

  lemma RecordsEnd(f: Doc, x: seq<Byte>, g: Doc, y: seq<Byte>)
    requires 0 !in f.name && 0 !in g.name && |f.content| == |g.content|
    requires f.name + [0] + f.content + x == g.name + [0] + g.content + y
    ensures f == g && x == y
  {
    var s, t := f.content + x, g.content + y;
    assert f.name + [0] + f.content + x == f.name + [0] + s && g.name + [0] + g.content + y == g.name + [0] + t;
    NulEndsName(f.name, s);
    NulEndsName(g.name, t);
    assert f.name == (f.name + [0] + s)[..|f.name|] && s == (f.name + [0] + s)[|f.name| + 1..];
    assert g.name == (g.name + [0] + t)[..|g.name|] && t == (g.name + [0] + t)[|g.name| + 1..];
    assert f.content == s[..|f.content|] && g.content == t[..|g.content|];
    assert x == s[|f.content|..] && y == t[|g.content|..];
  }

  function FirstNul(s: seq<Byte>): nat {
    if s == [] || s[0] == 0 then 0 else 1 + FirstNul(s[1..])
  }

  lemma {:induction false} NulEndsName(name: Name, rest: seq<Byte>)
    requires 0 !in name
    ensures FirstNul(name + [0] + rest) == |name|
  {
    if name != [] {
      assert (name + [0] + rest)[1..] == name[1..] + [0] + rest;
      NulEndsName(name[1..], rest);
    }
  }

  // ---------------------------------------------------------------- the content hash

  function ContentHash(hash: seq<Byte> -> seq<Byte>, docs: seq<Doc>): seq<Byte> {
    hash(Encode(Sort(Digests(hash, docs))))
  }

  ghost predicate Gives32Bytes(hash: seq<Byte> -> seq<Byte>) {
    forall x :: |hash(x)| == 32
  }

  /** No two of the byte strings digested for these files collide. */
  ghost predicate NoCollision(hash: seq<Byte> -> seq<Byte>, a: seq<Doc>, b: seq<Doc>) {
    && (forall d <- a, e <- b :: hash(d.content) == hash(e.content) ==> d.content == e.content)
    && var x, y := Encode(Sort(Digests(hash, a))), Encode(Sort(Digests(hash, b)));
       hash(x) == hash(y) ==> x == y
  }

  ghost predicate SameFiles(a: seq<Doc>, b: seq<Doc>) {
    forall d :: d in a <==> d in b
  }

  /** Nothing but the files decides the hash: the order they were met in is gone. */
  lemma SameFilesSameHash(hash: seq<Byte> -> seq<Byte>, a: seq<Doc>, b: seq<Doc>)
    requires DistinctNames(a) && DistinctNames(b) && SameFiles(a, b)
    ensures ContentHash(hash, a) == ContentHash(hash, b)
  {
    var x, y := Digests(hash, a), Digests(hash, b);
    SortOrders(x);
    SortOrders(y);
    forall d
      ensures d in x <==> d in y
    {
      DigestIsCarried(hash, a, b, d);
      DigestIsCarried(hash, b, a, d);
    }
    OneListing(Sort(x), Sort(y));
  }

  lemma DigestIsCarried(hash: seq<Byte> -> seq<Byte>, a: seq<Doc>, b: seq<Doc>, d: Doc)
    requires SameFiles(a, b)
    ensures d in Digests(hash, a) ==> d in Digests(hash, b)
  {
    if d in Digests(hash, a) {
      var i :| 0 <= i < |a| && d == Digests(hash, a)[i];
      assert a[i] in b;
      var j :| 0 <= j < |b| && b[j] == a[i];
      assert Digests(hash, b)[j] == d;
    }
  }

  /** The content hash names the content: without a collision it is equal exactly for equal files. */
  lemma ContentHashNamesTheFiles(hash: seq<Byte> -> seq<Byte>, a: seq<Doc>, b: seq<Doc>)
    requires Gives32Bytes(hash) && NoCollision(hash, a, b)
    requires DistinctNames(a) && DistinctNames(b) && (forall d <- a :: 0 !in d.name) && (forall d <- b :: 0 !in d.name)
    ensures ContentHash(hash, a) == ContentHash(hash, b) <==> SameFiles(a, b)
  {
    if SameFiles(a, b) {
      SameFilesSameHash(hash, a, b);
    }
    if ContentHash(hash, a) == ContentHash(hash, b) {
      var x, y := Digests(hash, a), Digests(hash, b);
      DigestsAreDecodable(hash, a);
      DigestsAreDecodable(hash, b);
      EncodeIsInjective(Sort(x), Sort(y));
      SortKeeps(x);
      SortKeeps(y);
      forall d <- a
        ensures d in b
      {
        FoundByDigest(hash, a, b, d);
      }
      forall d <- b
        ensures d in a
      {
        FoundByDigest(hash, b, a, d);
      }
    }
  }

  lemma FoundByDigest(hash: seq<Byte> -> seq<Byte>, a: seq<Doc>, b: seq<Doc>, d: Doc)
    requires d in a && forall e :: e in Digests(hash, a) <==> e in Digests(hash, b)
    requires forall e <- b :: hash(d.content) == hash(e.content) ==> d.content == e.content
    ensures d in b
  {
    var i :| 0 <= i < |a| && a[i] == d;
    assert Digests(hash, a)[i] in Digests(hash, b);
    var j :| 0 <= j < |b| && Digests(hash, b)[j] == Digests(hash, a)[i];
    assert b[j] in b;
  }

  lemma DigestsAreDecodable(hash: seq<Byte> -> seq<Byte>, s: seq<Doc>)
    requires Gives32Bytes(hash) && (forall d <- s :: 0 !in d.name)
    ensures Decodable(Sort(Digests(hash, s)))
  {
    SortKeeps(Digests(hash, s));
    forall f <- Sort(Digests(hash, s))
      ensures 0 !in f.name && |f.content| == 32
    {
      var i :| 0 <= i < |s| && f == Digests(hash, s)[i];
      assert s[i] in s;
    }
  }
}
