/** The callback that turns an environment-variable name into a configuration
    key (internal/config/config.go, lines 168-178), with ASCII letter case. */
module EnvKey {

  const PREFIX := "GO_"

  // ---------------------------------------------------------------- the code

  function TrimPrefix(s: string, prefix: string): string {
    if prefix <= s then s[|prefix|..] else s
  }

  function LowerChar(c: char): char {
    if 'A' <= c <= 'Z' then c - 'A' + 'a' else c
  }

  function ToLower(s: string): string {
    if s == "" then "" else [LowerChar(s[0])] + ToLower(s[1..])
  }

  /** strings.ReplaceAll: leftmost matches first, never overlapping. */
  function ReplaceAll(s: string, from: string, to: string): string
    requires from != ""
    decreases |s|
  {
    if s == "" then ""
    else if from <= s then to + ReplaceAll(s[|from|..], from, to)
    else [s[0]] + ReplaceAll(s[1..], from, to)
  }

  /** First pass: every underscore becomes a dot. */
  function Dots(s: string): string { ReplaceAll(ToLower(s), "_", ".") }

  /** Second pass: every pair of dots becomes an underscore. */
  function Squash(d: string): string { ReplaceAll(d, "..", "_") }

  function Decode(name: string): string { Squash(Dots(TrimPrefix(name, PREFIX))) }

  // ------------------------------------------------------ the one-pass reading

  predicate IsSep(c: char) { c == '_' || c == '.' }

  function RunLength(s: string): (n: nat)
    ensures n <= |s|
  {
    if s == "" || !IsSep(s[0]) then 0 else 1 + RunLength(s[1..])
  }

  function Repeat(c: char, n: nat): string {
    if n == 0 then "" else [c] + Repeat(c, n - 1)
  }

  /** n separators in a row mean n/2 underscores, then a dot when n is odd. */
  function DecodeRun(n: nat): string {
    Repeat('_', n / 2) + if n % 2 == 1 then "." else ""
  }

  function OnePass(s: string): string {
    if s == "" then ""
    else if IsSep(s[0]) then DecodeRun(RunLength(s)) + OnePass(s[RunLength(s)..])
    else [LowerChar(s[0])] + OnePass(s[1..])
  }

  function DotChar(c: char): char { if IsSep(c) then '.' else LowerChar(c) }

  lemma {:induction false} DotsCharwise(s: string)
    ensures |Dots(s)| == |s|
    ensures forall i :: 0 <= i < |s| ==> Dots(s)[i] == DotChar(s[i])
  {
    if s == "" {
    } else {
      DotsCharwise(s[1..]);
      assert ToLower(s)[1..] == ToLower(s[1..]);
      assert "_" <= ToLower(s) <==> s[0] == '_';
      assert Dots(s) == [DotChar(s[0])] + Dots(s[1..]);
    }
  }

  lemma {:induction false} RunIsSeparators(s: string)
    ensures var n := RunLength(s);
            (forall i :: 0 <= i < n ==> IsSep(s[i])) && (n < |s| ==> !IsSep(s[n]))
  {
    if s != "" && IsSep(s[0]) {
      RunIsSeparators(s[1..]);
      assert forall i :: 0 < i < |s| ==> s[i] == s[1..][i - 1];
    }
  }

  lemma {:induction false} RepeatAt(c: char, n: nat)
    ensures |Repeat(c, n)| == n && forall i :: 0 <= i < n ==> Repeat(c, n)[i] == c
  {
    if n == 0 {
    } else {
      RepeatAt(c, n - 1);
    }
  }

  lemma DotsFrom(s: string, n: nat)
    requires n <= |s|
    ensures |Dots(s)| == |s| && Dots(s)[n..] == Dots(s[n..])
  {
    DotsCharwise(s);
    DotsCharwise(s[n..]);
    assert forall i :: 0 <= i < |s| - n ==> s[n..][i] == s[n + i];
  }

  lemma DotsOfSeparators(s: string, n: nat)
    requires n <= |s| && forall i :: 0 <= i < n ==> IsSep(s[i])
    ensures |Dots(s)| == |s| && Dots(s)[..n] == Repeat('.', n)
  {
    DotsCharwise(s);
    RepeatAt('.', n);
  }

  lemma DotsRun(s: string)
    ensures Dots(s) == Repeat('.', RunLength(s)) + Dots(s[RunLength(s)..])
    ensures var rest := Dots(s[RunLength(s)..]); rest == "" || rest[0] != '.'
  {
    var n := RunLength(s);
    RunIsSeparators(s);
    DotsOfSeparators(s, n);
    DotsFrom(s, n);
    assert Dots(s) == Dots(s)[..n] + Dots(s)[n..];
    DotsCharwise(s[n..]);
  }

  lemma StartsWithPair(d: string)
    ensures ".." <= d <==> |d| >= 2 && d[0] == '.' && d[1] == '.'
  {
  }

  lemma {:induction false} SquashRun(n: nat, rest: string)
    requires rest == "" || rest[0] != '.'
    ensures Squash(Repeat('.', n) + rest) == DecodeRun(n) + Squash(rest)
  {
    var d := Repeat('.', n) + rest;
    if n == 0 {
      assert d == rest;
    } else if n == 1 {
      assert d == "." + rest;
      SquashDot(rest);
      assert DecodeRun(1) == "." by { assert Repeat('_', 0) == ""; }
    } else {
      var more := Repeat('.', n - 2) + rest;
      SquashRun(n - 2, rest);
      assert d == ".." + more by { assert Repeat('.', n) == ".." + Repeat('.', n - 2); }
      SquashPair(more);
      DecodeLonger(n);
    }
  }

  lemma DecodeLonger(n: nat)
    requires n >= 2
    ensures DecodeRun(n) == "_" + DecodeRun(n - 2)
  {
    assert Repeat('_', n / 2) == "_" + Repeat('_', (n - 2) / 2);
  }

  lemma SquashDot(rest: string)
    requires rest == "" || rest[0] != '.'
    ensures Squash("." + rest) == "." + Squash(rest)
  {
    StartsWithPair("." + rest);
    assert ("." + rest)[1..] == rest;
  }

  lemma SquashPair(rest: string)
    ensures Squash(".." + rest) == "_" + Squash(rest)
  {
    StartsWithPair(".." + rest);
    assert (".." + rest)[2..] == rest;
  }

  lemma {:induction false} SquashDotsIsOnePass(s: string)
    ensures Squash(Dots(s)) == OnePass(s)
    decreases |s|
  {
    if s == "" {
    } else if IsSep(s[0]) {
      DotsRun(s);
      SquashRun(RunLength(s), Dots(s[RunLength(s)..]));
      SquashDotsIsOnePass(s[RunLength(s)..]);
    } else {
      DotsCharwise(s);
      DotsCharwise(s[1..]);
      assert Dots(s) == [LowerChar(s[0])] + Dots(s[1..]);
      SquashDotsIsOnePass(s[1..]);
    }
  }

  /** The two overlapping replacements read every maximal run of separators
      independently: the code equals the one-pass transducer, on every name,
      past the prefix GO_ where there is one. */
  lemma DecodeIsOnePass(name: string)
    ensures Decode(name) == OnePass(if "GO_" <= name then name[3..] else name)
    ensures Decode("GO_" + name) == OnePass(name)
  {
    SquashDotsIsOnePass(TrimPrefix(name, PREFIX));
    SquashDotsIsOnePass(name);
    assert ("GO_" + name)[3..] == name;
  }

  // ---------------------------------------------------------- what it can yield

  /** No dot is followed by a dot or by an underscore. */
  predicate DotsStandAlone(p: string) {
    forall i :: 0 <= i < |p| - 1 && p[i] == '.' ==> !IsSep(p[i + 1])
  }

  function Expand(p: string): string { ReplaceAll(p, "_", "..") }

  lemma {:induction false} SquashOutput(d: string)
    requires '_' !in d
    ensures DotsStandAlone(Squash(d))
    ensures d == "" ==> Squash(d) == ""
    ensures d != "" && d[0] != '.' ==> Squash(d) != "" && Squash(d)[0] == d[0]
    ensures Expand(Squash(d)) == d
    decreases |d|
  {
    if d == "" {
    } else if ".." <= d {
      SquashOutput(d[2..]);
      assert Squash(d) == "_" + Squash(d[2..]);
      assert "_" <= Squash(d) && Squash(d)[1..] == Squash(d[2..]);
      assert d == ".." + d[2..];
    } else {
      SquashOutput(d[1..]);
      var q := Squash(d[1..]);
      assert Squash(d) == [d[0]] + q;
      if d[0] == '.' && q != "" {
        StartsWithPair(d);
        assert d[1..][0] == d[1];
      }
      assert d[0] in d && Squash(d)[0] != '_';
      assert Squash(d)[1..] == q;
      assert d == [d[0]] + d[1..];
    }
  }

  lemma {:induction false} ExpandHasNoUnderscore(p: string)
    ensures '_' !in Expand(p)
    ensures p == "" ==> Expand(p) == ""
    ensures p != "" && !IsSep(p[0]) ==> Expand(p) != "" && Expand(p)[0] == p[0]
  {
    if p == "" {
    } else {
      ExpandHasNoUnderscore(p[1..]);
      assert "_" <= p <==> p[0] == '_';
    }
  }

  lemma {:induction false} SquashExpand(p: string)
    requires DotsStandAlone(p)
    ensures Squash(Expand(p)) == p
  {
    if p == "" {
    } else {
      var e := Expand(p[1..]);
      assert forall i :: 0 <= i < |p[1..]| ==> p[1..][i] == p[i + 1];
      SquashExpand(p[1..]);
      if p[0] == '_' {
        assert "_" <= p;
        assert Expand(p) == ".." + e && Expand(p)[2..] == e;
      } else {
        assert !("_" <= p);
        assert Expand(p) == [p[0]] + e && Expand(p)[1..] == e;
        ExpandHasNoUnderscore(p[1..]);
        StartsWithPair(Expand(p));
      }
    }
  }

  lemma DotsHasNoUnderscore(s: string)
    ensures '_' !in Dots(s)
  {
    DotsCharwise(s);
  }

  predicate NoUpper(p: string) { forall i :: 0 <= i < |p| ==> !('A' <= p[i] <= 'Z') }

  lemma NoUpperAppend(a: string, b: string)
    ensures NoUpper(a + b) <==> NoUpper(a) && NoUpper(b)
  {
    var c := a + b;
    assert forall i :: 0 <= i < |a| ==> c[i] == a[i];
    assert forall i :: 0 <= i < |b| ==> c[|a| + i] == b[i];
  }

  lemma {:induction false} ExpandKeepsCase(p: string)
    ensures NoUpper(Expand(p)) <==> NoUpper(p)
  {
    if p == "" {
    } else {
      ExpandKeepsCase(p[1..]);
      assert "_" <= p <==> p[0] == '_';
      var head := if p[0] == '_' then ".." else [p[0]];
      assert NoUpper(head) <==> NoUpper([p[0]]);
      NoUpperAppend(head, Expand(p[1..]));
      NoUpperAppend([p[0]], p[1..]);
      assert p == [p[0]] + p[1..];
    }
  }

  lemma NameFor(p: string)
    requires DotsStandAlone(p) && NoUpper(p)
    ensures Decode(PREFIX + Expand(p)) == p
  {
    var e := Expand(p);
    assert TrimPrefix(PREFIX + e, PREFIX) == e;
    DotsCharwise(e);
    ExpandKeepsCase(p);
    ExpandHasNoUnderscore(p);
    assert forall i :: 0 <= i < |e| ==> e[i] in e && Dots(e)[i] == e[i];
    assert Dots(e) == e;
    SquashExpand(p);
  }

  lemma KeyOf(name: string)
    ensures DotsStandAlone(Decode(name)) && NoUpper(Decode(name))
  {
    var d := Dots(TrimPrefix(name, PREFIX));
    DotsCharwise(TrimPrefix(name, PREFIX));
    DotsHasNoUnderscore(TrimPrefix(name, PREFIX));
    SquashOutput(d);
    assert NoUpper(d);
    ExpandKeepsCase(Decode(name));
  }

  /** Exactly the keys the callback can produce: lower case, and no dot in
      front of another dot or of an underscore. */
  lemma KeysProduced(p: string)
    ensures (exists name :: Decode(name) == p) <==> DotsStandAlone(p) && NoUpper(p)
  {
    if DotsStandAlone(p) && NoUpper(p) { NameFor(p); }
    if name :| Decode(name) == p { KeyOf(name); }
  }

  /** Two characters the callback cannot tell apart. */
  predicate SameToDecoder(c: char, d: char) {
    || c == d || (c in "_." && d in "_.")
    || ('A' <= c <= 'Z' && d as int - c as int == 'a' as int - 'A' as int)
    || ('A' <= d <= 'Z' && c as int - d as int == 'a' as int - 'A' as int)
  }

  /** Two variables set the same key exactly when, past the prefix, they agree
      up to letter case and up to writing a dot for an underscore. */
  lemma DecodeCollision(a: string, b: string)
    ensures Decode(a) == Decode(b) <==>
            var x, y := if "GO_" <= a then a[3..] else a, if "GO_" <= b then b[3..] else b;
            |x| == |y| && forall i :: 0 <= i < |x| ==> SameToDecoder(x[i], y[i])
  {
    var x, y := TrimPrefix(a, PREFIX), TrimPrefix(b, PREFIX);
    DotsCharwise(x);
    DotsCharwise(y);
    DotsHasNoUnderscore(x);
    DotsHasNoUnderscore(y);
    SquashOutput(Dots(x));
    SquashOutput(Dots(y));
    assert forall c, d :: SameToDecoder(c, d) <==> DotChar(c) == DotChar(d);
    if |x| == |y| && forall i :: 0 <= i < |x| ==> SameToDecoder(x[i], y[i]) {
      assert Dots(x) == Dots(y);
    }
    if Decode(a) == Decode(b) {
      assert Dots(x) == Dots(y);
      forall i | 0 <= i < |x| ensures SameToDecoder(x[i], y[i]) {
        assert Dots(x)[i] == DotChar(x[i]) == DotChar(y[i]);
      }
    }
  }

  // ---------------------------------------------------------------- round trip

  function UpperChar(c: char): char {
    if 'a' <= c <= 'z' then c - 'a' + 'A' else c
  }

  /** One segment of a key, written for the environment: upper case, every
      underscore doubled. */
  function EncodeSegment(seg: string): string {
    if seg == "" then ""
    else (if seg[0] == '_' then "__" else [UpperChar(seg[0])]) + EncodeSegment(seg[1..])
  }

  function EncodePath(segs: seq<string>): string {
    if segs == [] then ""
    else if |segs| == 1 then EncodeSegment(segs[0])
    else EncodeSegment(segs[0]) + "_" + EncodePath(segs[1..])
  }

  function JoinPath(segs: seq<string>): string {
    if segs == [] then ""
    else if |segs| == 1 then segs[0]
    else segs[0] + "." + JoinPath(segs[1..])
  }

  /** Segments a configuration struct can name: lower case and without dots. */
  predicate IsSegment(seg: string) {
    NoUpper(seg) && '.' !in seg
  }

  /** What the escaping scheme can express: after the first segment none may
      begin with an underscore, and only the first and the last may be empty. */
  predicate Expressible(segs: seq<string>) {
    && (forall i :: 0 < i < |segs| && segs[i] != "" ==> segs[i][0] != '_')
    && (forall i :: 0 < i < |segs| - 1 ==> segs[i] != "")
  }

  lemma DotsAppend(a: string, b: string)
    ensures Dots(a + b) == Dots(a) + Dots(b)
  {
    DotsCharwise(a);
    DotsCharwise(b);
    DotsCharwise(a + b);
  }

  lemma {:induction false} ExpandAppend(a: string, b: string)
    ensures Expand(a + b) == Expand(a) + Expand(b)
  {
    if a == "" {
      assert a + b == b;
    } else {
      ExpandAppend(a[1..], b);
      assert (a + b)[1..] == a[1..] + b;
      assert "_" <= a <==> a[0] == '_';
      assert "_" <= a + b <==> a[0] == '_';
    }
  }

  lemma {:induction false} SegmentDots(seg: string)
    requires IsSegment(seg)
    ensures Dots(EncodeSegment(seg)) == Expand(seg)
  {
    if seg == "" {
    } else {
      assert seg[0] in seg && seg == [seg[0]] + seg[1..];
      SegmentDots(seg[1..]);
      var head := if seg[0] == '_' then "__" else [UpperChar(seg[0])];
      DotsAppend(head, EncodeSegment(seg[1..]));
      DotsCharwise(head);
      assert Dots(head) == if seg[0] == '_' then ".." else [seg[0]];
      assert "_" <= seg <==> seg[0] == '_';
    }
  }

  lemma {:induction false} PathDots(segs: seq<string>)
    requires forall i :: 0 <= i < |segs| ==> IsSegment(segs[i])
    ensures Dots(EncodePath(segs)) == Expand(JoinPath(segs))
  {
    if segs == [] {
    } else {
      SegmentDots(segs[0]);
      if |segs| > 1 {
        PathDots(segs[1..]);
        var rest := EncodePath(segs[1..]);
        DotsAppend(EncodeSegment(segs[0]) + "_", rest);
        DotsAppend(EncodeSegment(segs[0]), "_");
        DotsCharwise("_");
        assert Dots("_") == ".";
        ExpandAppend(segs[0] + ".", JoinPath(segs[1..]));
        ExpandAppend(segs[0], ".");
        assert Expand(".") == ".";
      }
    }
  }

  lemma {:induction false} JoinedPathDots(segs: seq<string>)
    requires segs != []
    requires forall i :: 0 <= i < |segs| ==> IsSegment(segs[i])
    ensures DotsStandAlone(JoinPath(segs)) <==> Expressible(segs)
  {
    var s := segs[0];
    assert IsSegment(s);
    assert forall i :: 0 <= i < |s| ==> s[i] in s && s[i] != '.';
    if |segs| > 1 {
      var rest := segs[1..];
      assert forall i :: 0 <= i < |rest| ==> rest[i] == segs[i + 1];
      JoinedPathDots(rest);
      var q, p := JoinPath(rest), JoinPath(segs);
      assert p == s + "." + q;
      assert p[|s|] == '.';
      assert forall i :: 0 <= i < |q| ==> p[|s| + 1 + i] == q[i];
      FirstOfJoin(rest);
      assert DotsStandAlone(p) <==> DotsStandAlone(q) && (q == "" || !IsSep(q[0])) by {
        if DotsStandAlone(p) {
          if q != "" { assert p[|s| + 1] == q[0]; }
          forall i | 0 <= i < |q| - 1 && q[i] == '.' ensures !IsSep(q[i + 1]) {
            assert p[|s| + 1 + i] == '.' && p[|s| + 1 + i + 1] == q[i + 1];
          }
        }
        if DotsStandAlone(q) && (q == "" || !IsSep(q[0])) {
          forall i | 0 <= i < |p| - 1 && p[i] == '.' ensures !IsSep(p[i + 1]) {
            if i > |s| { assert p[i] == q[i - |s| - 1] && p[i + 1] == q[i - |s|]; }
          }
        }
      }
      ExpressibleTail(segs);
    }
  }

  lemma FirstOfJoin(segs: seq<string>)
    requires segs != []
    requires IsSegment(segs[0])
    ensures var q := JoinPath(segs);
            (q == "" || !IsSep(q[0])) <==>
            (segs[0] == "" ==> |segs| == 1) && (segs[0] != "" ==> segs[0][0] != '_')
  {
  }

  lemma ExpressibleTail(segs: seq<string>)
    requires |segs| > 1
    ensures Expressible(segs) <==>
            Expressible(segs[1..]) && (segs[1] == "" ==> |segs| == 2) && (segs[1] != "" ==> segs[1][0] != '_')
  {
  }

  /** The round trip holds exactly for the expressible paths. */
  lemma RoundTrip(segs: seq<string>)
    requires segs != []
    requires forall i :: 0 <= i < |segs| ==> IsSegment(segs[i])
    ensures Decode("GO_" + EncodePath(segs)) == JoinPath(segs) <==> Expressible(segs)
  {
    var p := JoinPath(segs);
    assert TrimPrefix("GO_" + EncodePath(segs), PREFIX) == EncodePath(segs);
    PathDots(segs);
    JoinedPathDots(segs);
    if DotsStandAlone(p) { SquashExpand(p); }
    ExpandHasNoUnderscore(p);
    SquashOutput(Expand(p));
  }

  /** The side condition is needed: two different paths share the variable
      GO_A___B, and the callback reads it as the expressible one. */
  lemma RoundTripFails()
    ensures "GO_" + EncodePath(["a", "_b"]) == "GO_A___B" == "GO_" + EncodePath(["a_", "b"])
    ensures Decode("GO_A___B") == "a_.b" == JoinPath(["a_", "b"])
    ensures JoinPath(["a", "_b"]) == "a._b" != "a_.b"
  {
    EncodePair("a", "_b");
    EncodePair("a_", "b");
    assert EncodeSegment("a") == "A";
    assert "_b"[1..] == "b" && EncodeSegment("b") == "B";
    assert "a_"[1..] == "_" && EncodeSegment("_") == "__";
    assert "A" + "_" + "__B" == "A___B" == "A__" + "_" + "B";
    RoundTrip(["a_", "b"]);
    assert "a_" + "." + "b" == "a_.b" && "a" + "." + "_b" == "a._b";
    assert "a_.b"[1] != "a._b"[1];
  }

  /** Encoded names are ordinary variable names: no lower case, no dots. */
  lemma {:induction false} NamesAreUpper(segs: seq<string>)
    requires forall i :: 0 <= i < |segs| ==> IsSegment(segs[i])
    ensures Shouted(EncodePath(segs))
  {
    if segs == [] {
    } else {
      SegmentIsUpper(segs[0]);
      if |segs| > 1 {
        NamesAreUpper(segs[1..]);
        ShoutedAppend(EncodeSegment(segs[0]), "_");
        ShoutedAppend(EncodeSegment(segs[0]) + "_", EncodePath(segs[1..]));
      }
    }
  }

  predicate Shouted(s: string) { forall i :: 0 <= i < |s| ==> s[i] != '.' && !('a' <= s[i] <= 'z') }

  lemma ShoutedAppend(a: string, b: string)
    requires Shouted(a) && Shouted(b)
    ensures Shouted(a + b)
  {
  }

  lemma {:induction false} SegmentIsUpper(seg: string)
    requires IsSegment(seg)
    ensures Shouted(EncodeSegment(seg))
  {
    if seg == "" {
    } else {
      assert seg[0] in seg && seg == [seg[0]] + seg[1..];
      SegmentIsUpper(seg[1..]);
      ShoutedAppend(if seg[0] == '_' then "__" else [UpperChar(seg[0])], EncodeSegment(seg[1..]));
    }
  }

  lemma EncodePair(s: string, t: string)
    ensures EncodePath([s, t]) == EncodeSegment(s) + "_" + EncodeSegment(t)
    ensures JoinPath([s, t]) == s + "." + t
  {
  }
}
