/** The header attributes of an access-log line
    (internal/server/middleware/accesslog.go, lines 78-87). */
module HeaderLog {
  type Headers = map<string, seq<string>>

  datatype Attr = Attr(key: string, value: string)

  /** Strings in the order of their characters, a proper prefix first. */
  predicate LessEq(a: string, b: string) {
    a == "" || (b != "" && (a[0] < b[0] || (a[0] == b[0] && LessEq(a[1..], b[1..]))))
  }

  /** Ordered by the first position at which they differ. */
  lemma {:induction false} FirstDifference(a: string, b: string, n: nat)
    requires n <= |a| && n <= |b| && a[..n] == b[..n]
    ensures n == |a| ==> LessEq(a, b)
    ensures n == |b| < |a| ==> !LessEq(a, b)
    ensures n < |a| && n < |b| && a[n] != b[n] ==> (LessEq(a, b) <==> a[n] < b[n])
  {
    if n == 0 {
    } else {
      assert a[0] == a[..n][0] == b[0];
      assert a[1..][..n - 1] == a[..n][1..] && b[1..][..n - 1] == b[..n][1..];
      FirstDifference(a[1..], b[1..], n - 1);
    }
  }

  lemma {:induction false} Total(a: string, b: string)
    ensures LessEq(a, b) || LessEq(b, a)
    ensures LessEq(a, b) && LessEq(b, a) ==> a == b
  {
    if a != "" && b != "" && a[0] == b[0] {
      Total(a[1..], b[1..]);
      assert a == [a[0]] + a[1..] && b == [b[0]] + b[1..];
    }
  }

  lemma {:induction false} Transitive(a: string, b: string, c: string)
    requires LessEq(a, b) && LessEq(b, c)
    ensures LessEq(a, c)
  {
    if a != "" && a[0] == b[0] == c[0] { Transitive(a[1..], b[1..], c[1..]); }
  }

  predicate Sorted(s: seq<string>) {
    forall i, j :: 0 <= i < j < |s| ==> LessEq(s[i], s[j])
  }

  /** slices.Sort on a slice, here by insertion. */
  method Sort(keys: seq<string>) returns (sorted: seq<string>)
    ensures Sorted(sorted) && multiset(sorted) == multiset(keys)
  {
    sorted := [];
    var i := 0;
    while i < |keys|
      invariant 0 <= i <= |keys|
      invariant Sorted(sorted) && multiset(sorted) == multiset(keys[..i])
    {
      assert keys[..i + 1] == keys[..i] + [keys[i]];
      sorted := Insert(sorted, keys[i]);
      i := i + 1;
    }
    assert keys[..|keys|] == keys;
  }

  function Insert(s: seq<string>, k: string): (r: seq<string>)
    requires Sorted(s)
    ensures Sorted(r) && multiset(r) == multiset(s) + multiset{k}
  {
    if s == [] then [k]
    else if LessEq(k, s[0]) then
      InsertedFirst(s, k);
      [k] + s
    else
      var rest := Insert(s[1..], k);
      InsertedLater(s, k, rest);
      [s[0]] + rest
  }

  lemma InsertedFirst(s: seq<string>, k: string)
    requires Sorted(s) && s != [] && LessEq(k, s[0])
    ensures Sorted([k] + s)
  {
    forall j | 0 < j < |s| ensures LessEq(k, s[j]) { Transitive(k, s[0], s[j]); }
  }

  lemma InsertedLater(s: seq<string>, k: string, rest: seq<string>)
    requires Sorted(s) && s != [] && !LessEq(k, s[0])
    requires Sorted(rest) && multiset(rest) == multiset(s[1..]) + multiset{k}
    ensures Sorted([s[0]] + rest) && multiset([s[0]] + rest) == multiset(s) + multiset{k}
  {
    Total(k, s[0]);
    assert s == [s[0]] + s[1..];
    forall j | 0 <= j < |rest| ensures LessEq(s[0], rest[j]) {
      assert rest[j] in multiset(rest);
      if rest[j] != k { assert rest[j] in s[1..]; }
    }
  }

  function Join(values: seq<string>, sep: string): string {
    if values == [] then "" else if |values| == 1 then values[0] else values[0] + sep + Join(values[1..], sep)
  }

  /** Where the n-th value starts in the joined string. */
  function StartOf(values: seq<string>, sep: string, n: nat): nat
    requires n <= |values|
  {
    if n == 0 then 0 else |values[0]| + |sep| + StartOf(values[1..], sep, n - 1)
  }

  /** The joined string holds every value whole, in order, with the separator
      between each two and nothing else. */
  lemma {:induction false} Joined(values: seq<string>, sep: string, n: nat)
    ensures values == [] ==> Join(values, sep) == ""
    ensures n < |values| ==>
            var at, all := StartOf(values, sep, n), Join(values, sep);
            && at + |values[n]| <= |all| && all[at..at + |values[n]|] == values[n]
            && (if n == |values| - 1 then at + |values[n]| == |all|
                else at + |values[n]| + |sep| == StartOf(values, sep, n + 1) <= |all|
                     && all[at + |values[n]|..at + |values[n]| + |sep|] == sep)
  {
    if n < |values| && |values| > 1 {
      var all, at := Join(values, sep), StartOf(values, sep, n);
      var rest, skip := Join(values[1..], sep), |values[0]| + |sep|;
      assert all == values[0] + sep + rest;
      if n == 0 {
        assert StartOf(values, sep, 1) == skip;
      } else {
        Joined(values[1..], sep, n - 1);
        var inner := StartOf(values[1..], sep, n - 1);
        assert at == skip + inner;
        Shifted(values[0] + sep, rest, inner, inner + |values[n]|);
        if n < |values| - 1 { Shifted(values[0] + sep, rest, inner + |values[n]|, inner + |values[n]| + |sep|); }
      }
    }
  }

  lemma Shifted(a: string, b: string, i: nat, j: nat)
    requires i <= j <= |b|
    ensures (a + b)[|a| + i..|a| + j] == b[i..j]
  {
  }

  /** The attributes a header map calls for: its keys in increasing order, each
      once and in canonical form, with its own values joined. */
  ghost predicate Logs(h: Headers, canonical: string -> string, attrs: seq<Attr>) {
    exists keys: seq<string> :: Enumerates(h, keys) && Spells(h, canonical, keys, attrs)
  }

  predicate Spells(h: Headers, canonical: string -> string, keys: seq<string>, attrs: seq<Attr>)
    requires forall k :: k in keys ==> k in h
  {
    |attrs| == |keys| && forall i :: 0 <= i < |keys| ==> attrs[i] == Attr(canonical(keys[i]), Join(h[keys[i]], ", "))
  }

  ghost predicate Enumerates(h: Headers, keys: seq<string>) {
    && Sorted(keys)
    && (forall i, j :: 0 <= i < j < |keys| ==> keys[i] != keys[j])
    && (forall k :: k in h <==> k in keys)
  }

  /** Ranges over the map in any order, sorts the keys, builds the attributes. */
  method HeaderAttrs(h: Headers, canonical: string -> string) returns (attrs: seq<Attr>)
    ensures Logs(h, canonical, attrs)
  {
    var keys := [];
    var todo := h.Keys;
    while todo != {}
      invariant todo <= h.Keys
      invariant forall k :: k in h <==> k in keys || k in todo
      invariant forall k :: k in keys ==> k !in todo
      invariant forall i, j :: 0 <= i < j < |keys| ==> keys[i] != keys[j]
      decreases todo
    {
      var k :| k in todo;
      todo := todo - {k};
      keys := keys + [k];
    }
    var sorted := Sort(keys);
    SamePermuted(keys, sorted);
    attrs := [];
    var i := 0;
    while i < |sorted|
      invariant 0 <= i <= |sorted| && |attrs| == i
      invariant forall j :: 0 <= j < i ==> attrs[j] == Attr(canonical(sorted[j]), Join(h[sorted[j]], ", "))
    {
      attrs := attrs + [Attr(canonical(sorted[i]), Join(h[sorted[i]], ", "))];
      i := i + 1;
    }
    assert Enumerates(h, sorted) && Spells(h, canonical, sorted, attrs);
  }

  lemma SamePermuted(a: seq<string>, b: seq<string>)
    requires multiset(a) == multiset(b)
    requires forall i, j :: 0 <= i < j < |a| ==> a[i] != a[j]
    ensures forall i, j :: 0 <= i < j < |b| ==> b[i] != b[j]
    ensures forall k :: k in a <==> k in b
  {
    forall k ensures k in a <==> k in b { assert k in multiset(a) <==> k in multiset(b); }
    forall i, j | 0 <= i < j < |b| ensures b[i] != b[j] {
      if b[i] == b[j] {
        assert b == b[..i] + [b[i]] + b[i + 1..j] + [b[j]] + b[j + 1..];
        assert multiset(b)[b[i]] >= 2;
        OnceEach(a, b[i]);
      }
    }
  }

  lemma {:induction false} OnceEach(a: seq<string>, k: string)
    requires forall i, j :: 0 <= i < j < |a| ==> a[i] != a[j]
    ensures multiset(a)[k] <= 1
  {
    if a == [] {
    } else {
      assert a == [a[0]] + a[1..];
      OnceEach(a[1..], k);
      if k == a[0] { assert k !in a[1..]; }
    }
  }

  lemma HasElement(s: seq<string>)
    ensures s != [] ==> exists k :: k in s
  {
    if s != [] { assert s[0] in s; }
  }

  lemma {:induction false} OneEnumeration(h: Headers, a: seq<string>, b: seq<string>)
    requires Enumerates(h, a) && Enumerates(h, b)
    ensures a == b
    decreases |a|
  {
    if a == [] {
      HasElement(b);
    } else {
      assert a[0] in a && a[0] in b;
      assert b[0] in b && b[0] in a;
      Total(a[0], b[0]);
      assert a[0] == b[0];
      var g := h - {a[0]};
      assert a == [a[0]] + a[1..] && b == [b[0]] + b[1..];
      OneEnumeration(g, a[1..], b[1..]);
    }
  }

  /** Whatever order the map is ranged over in, the line is the same. */
  lemma OrderDoesNotMatter(h: Headers, canonical: string -> string, attrs: seq<Attr>, others: seq<Attr>)
    requires Logs(h, canonical, attrs) && Logs(h, canonical, others)
    ensures attrs == others
  {
    var a: seq<string> :| Enumerates(h, a) && Spells(h, canonical, a, attrs);
    var b: seq<string> :| Enumerates(h, b) && Spells(h, canonical, b, others);
    OneEnumeration(h, a, b);
    assert forall i :: 0 <= i < |a| ==> attrs[i] == others[i];
  }
}
