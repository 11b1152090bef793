/**
 Lexicographic order, and the text form of a UUID.

 Go compares strings byte by byte; PostgreSQL compares uuid values the same way over
 their sixteen bytes. UuidStringOrder shows that the hyphenated lower-case form of
 section 4 of RFC 9562 orders ids exactly as their bytes do.
 */
module Text {
  import opened Sorting

  ghost predicate TotalOrder<T(!new)>(less: (T, T) -> bool) {
    StrictWeakOrder(less) && forall x, y :: less(x, y) || less(y, x) || x == y
  }

  predicate LexLess<T(==)>(a: seq<T>, b: seq<T>, less: (T, T) -> bool) {
    if b == [] then false
    else if a == [] then true
    else if a[0] == b[0] then LexLess(a[1..], b[1..], less)
    else less(a[0], b[0])
  }

  predicate CharLess(x: char, y: char) { x < y }

  predicate StringLess(a: string, b: string) { LexLess(a, b, CharLess) }

  lemma {:induction false} LexTransitive<T(!new)>(a: seq<T>, b: seq<T>, c: seq<T>, less: (T, T) -> bool)
    requires TotalOrder(less)
    ensures LexLess(a, b, less) && LexLess(b, c, less) ==> LexLess(a, c, less)
  {
    if a != [] && b != [] && c != [] {
      LexTransitive(a[1..], b[1..], c[1..], less);
    }
  }

  lemma {:induction false} LexTrichotomy<T(!new)>(a: seq<T>, b: seq<T>, less: (T, T) -> bool)
    requires TotalOrder(less)
    ensures !LexLess(a, a, less)
    ensures LexLess(a, b, less) || LexLess(b, a, less) || a == b
    ensures !(LexLess(a, b, less) && LexLess(b, a, less))
  {
    if a != [] {
      LexTrichotomy(a[1..], if b == [] then [] else b[1..], less);
      assert a == [a[0]] + a[1..];
      assert b != [] ==> b == [b[0]] + b[1..];
    }
  }

  /** Go's string comparison is a strict total order, so sort.Strings has one result. */
  lemma StringOrder()
    ensures TotalOrder(StringLess)
  {
    assert TotalOrder(CharLess);
    forall x, y ensures !StringLess(x, x) && (StringLess(x, y) || StringLess(y, x) || x == y)
    ensures !(StringLess(x, y) && StringLess(y, x))
    {
      LexTrichotomy(x, y, CharLess);
    }
    forall x, y, z ensures StringLess(x, y) && StringLess(y, z) ==> StringLess(x, z) {
      LexTransitive(x, y, z, CharLess);
    }
    forall x, y, z ensures !StringLess(x, y) && !StringLess(y, z) ==> !StringLess(x, z) {
      LexTransitive(z, y, x, CharLess);
    }
  }

  // Equal-length first blocks decide before anything after them.
  lemma {:induction false} LexBlocks<T>(p: seq<T>, q: seq<T>, p': seq<T>, q': seq<T>, less: (T, T) -> bool)
    requires |p| == |p'|
    ensures LexLess(p + q, p' + q', less)
       <==> LexLess(p, p', less) || (p == p' && LexLess(q, q', less))
  {
    if p == [] {
      assert p + q == q && p' + q' == q';
    } else {
      assert (p + q)[1..] == p[1..] + q && (p' + q')[1..] == p'[1..] + q';
      assert p == [p[0]] + p[1..] && p' == [p'[0]] + p'[1..];
      LexBlocks(p[1..], q, p'[1..], q', less);
    }
  }

  type Byte = b: int | 0 <= b < 256

  predicate ByteLess(x: Byte, y: Byte) { x < y }

  type Uuid = u: seq<Byte> | |u| == 16 witness seq(16, _ => 0)

  predicate UuidLess(a: Uuid, b: Uuid) { LexLess(a, b, ByteLess) }

  function HexDigit(n: int): char
    requires 0 <= n < 16
  {
    (if n < 10 then '0' as int + n else 'a' as int + n - 10) as char
  }

  function Hex(bytes: seq<Byte>): (h: string)
    ensures |h| == 2 * |bytes|
  {
    if bytes == [] then "" else
    [HexDigit(bytes[0] / 16), HexDigit(bytes[0] % 16)] + Hex(bytes[1..])
  }

  // The group of u from byte m to byte n, a hyphen, and the groups after it.
  function Group(u: seq<Byte>, m: nat, n: nat, rest: string): (s: string)
    requires m <= n <= |u|
    ensures |s| == 2 * (n - m) + 1 + |rest| && s[2 * (n - m)] == '-' && s[2 * (n - m) + 1..] == rest
  {
    Hex(u[m..n]) + ("-" + rest)
  }

  function UuidString(u: Uuid): (s: string)
    ensures |s| == 36 && s[8] == s[13] == s[18] == s[23] == '-'
  {
    Group(u, 0, 4, Group(u, 4, 6, Group(u, 6, 8, Group(u, 8, 10, Hex(u[10..])))))
  }

  lemma HexDigitOrder(m: int, n: int)
    requires 0 <= m < 16 && 0 <= n < 16
    ensures HexDigit(m) < HexDigit(n) <==> m < n
    ensures HexDigit(m) == HexDigit(n) <==> m == n
  {
  }

  lemma {:induction false} HexOrder(a: seq<Byte>, b: seq<Byte>)
    requires |a| == |b|
    ensures StringLess(Hex(a), Hex(b)) <==> LexLess(a, b, ByteLess)
    ensures Hex(a) == Hex(b) <==> a == b
  {
    if a != [] {
      var x, y := a[0], b[0];
      HexOrder(a[1..], b[1..]);
      HexDigitOrder(x / 16, y / 16);
      HexDigitOrder(x % 16, y % 16);
      var p, p' := [HexDigit(x / 16), HexDigit(x % 16)], [HexDigit(y / 16), HexDigit(y % 16)];
      LexBlocks(p, Hex(a[1..]), p', Hex(b[1..]), CharLess);
      assert p[1..] == [p[1]] && p'[1..] == [p'[1]];
      assert p == p' <==> x == y;
      assert Hex(a)[..2] == p && Hex(b)[..2] == p';
      assert Hex(a)[2..] == Hex(a[1..]) && Hex(b)[2..] == Hex(b[1..]);
      assert a == [x] + a[1..] && b == [y] + b[1..];
    }
  }

  lemma GroupOrder(a: seq<Byte>, b: seq<Byte>, m: nat, n: nat, s: string, t: string)
    requires m <= n <= |a| == |b| && |s| == |t|
    requires StringLess(s, t) <==> LexLess(a[n..], b[n..], ByteLess)
    requires s == t <==> a[n..] == b[n..]
    ensures StringLess(Group(a, m, n, s), Group(b, m, n, t)) <==> LexLess(a[m..], b[m..], ByteLess)
    ensures Group(a, m, n, s) == Group(b, m, n, t) <==> a[m..] == b[m..]
  {
    var g, h := a[m..n], b[m..n];
    HexOrder(g, h);
    LexBlocks(Hex(g), "-" + s, Hex(h), "-" + t, CharLess);
    LexBlocks("-", s, "-", t, CharLess);
    LexBlocks(g, a[n..], h, b[n..], ByteLess);
    assert a[m..] == g + a[n..] && b[m..] == h + b[n..];
    var u, v := Group(a, m, n, s), Group(b, m, n, t);
    assert u[..|Hex(g)|] == Hex(g) && v[..|Hex(h)|] == Hex(h);
    assert u[|Hex(g)| + 1..] == s && v[|Hex(h)| + 1..] == t;
    assert a[m..][..n - m] == g && b[m..][..n - m] == h;
    assert a[m..][n - m..] == a[n..] && b[m..][n - m..] == b[n..];
  }

  /** The text form of an id orders, and identifies, ids exactly as its bytes do. */
  lemma UuidStringOrder(a: Uuid, b: Uuid)
    ensures StringLess(UuidString(a), UuidString(b)) <==> UuidLess(a, b)
    ensures UuidString(a) == UuidString(b) <==> a == b
  {
    var s, t := Hex(a[10..]), Hex(b[10..]);
    HexOrder(a[10..], b[10..]);
    GroupOrder(a, b, 8, 10, s, t);
    s, t := Group(a, 8, 10, s), Group(b, 8, 10, t);
    GroupOrder(a, b, 6, 8, s, t);
    s, t := Group(a, 6, 8, s), Group(b, 6, 8, t);
    GroupOrder(a, b, 4, 6, s, t);
    s, t := Group(a, 4, 6, s), Group(b, 4, 6, t);
    GroupOrder(a, b, 0, 4, s, t);
    assert a[0..] == a && b[0..] == b;
  }

  // ----- Case and outer space, for ASCII --------------------------------------------

  function Lower(c: char): char {
    if 'A' <= c <= 'Z' then c - 'A' + 'a' else c
  }

  function ToLower(s: string): (r: string)
    ensures |r| == |s|
    ensures forall i | 0 <= i < |s| :: r[i] == Lower(s[i])
  {
    if s == [] then [] else [Lower(s[0])] + ToLower(s[1..])
  }

  predicate IsSpace(c: char) {
    c == ' ' || '\t' <= c <= '\r'
  }

  ghost predicate AllSpace(s: string) {
    forall c | c in s :: IsSpace(c)
  }

  function TrimLeft(s: string): string {
    if s != [] && IsSpace(s[0]) then TrimLeft(s[1..]) else s
  }

  function TrimRight(s: string): string {
    if s != [] && IsSpace(s[|s| - 1]) then TrimRight(s[..|s| - 1]) else s
  }

  function TrimSpace(s: string): string { TrimRight(TrimLeft(s)) }

  function BTrimLeft(s: string): string {
    if s != [] && s[0] == ' ' then BTrimLeft(s[1..]) else s
  }

  function BTrimRight(s: string): string {
    if s != [] && s[|s| - 1] == ' ' then BTrimRight(s[..|s| - 1]) else s
  }

  // PostgreSQL's btrim strips spaces and no other white space.
  function BTrim(s: string): string { BTrimRight(BTrimLeft(s)) }

  lemma {:induction false} TrimLeftPadded(a: string, s: string)
    requires AllSpace(a)
    ensures TrimLeft(a + s) == TrimLeft(s)
  {
    if a == [] {
      assert a + s == s;
    } else {
      assert (a + s)[1..] == a[1..] + s;
      TrimLeftPadded(a[1..], s);
    }
  }

  lemma {:induction false} TrimRightPadded(s: string, b: string)
    requires AllSpace(b)
    ensures TrimRight(s + b) == TrimRight(s)
  {
    if b == [] {
      assert s + b == s;
    } else {
      assert (s + b)[..|s + b| - 1] == s + b[..|b| - 1];
      TrimRightPadded(s, b[..|b| - 1]);
    }
  }

  lemma {:induction false} TrimLeftKeepsEnd(s: string, b: string)
    requires AllSpace(b)
    ensures TrimRight(TrimLeft(s + b)) == TrimRight(TrimLeft(s))
  {
    if s == [] {
      assert s + b == b == b + [];
      TrimLeftPadded(b, []);
    } else if IsSpace(s[0]) {
      assert (s + b)[1..] == s[1..] + b;
      TrimLeftKeepsEnd(s[1..], b);
    } else {
      TrimRightPadded(s, b);
    }
  }

  /** Space around a string does not change what is left after trimming it. */
  lemma TrimPadded(a: string, s: string, b: string)
    requires AllSpace(a) && AllSpace(b)
    ensures TrimSpace(a + s + b) == TrimSpace(s)
  {
    assert a + s + b == a + (s + b);
    TrimLeftPadded(a, s + b);
    TrimLeftKeepsEnd(s, b);
  }

  lemma {:induction false} LowerTrimLeft(s: string)
    ensures ToLower(TrimLeft(s)) == TrimLeft(ToLower(s))
  {
    if s != [] && IsSpace(s[0]) {
      LowerTrimLeft(s[1..]);
      assert ToLower(s)[1..] == ToLower(s[1..]);
    }
  }

  lemma {:induction false} LowerTrimRight(s: string)
    ensures ToLower(TrimRight(s)) == TrimRight(ToLower(s))
  {
    if s != [] && IsSpace(s[|s| - 1]) {
      LowerTrimRight(s[..|s| - 1]);
      assert ToLower(s)[..|s| - 1] == ToLower(s[..|s| - 1]);
    }
  }

  /** Folding case and trimming commute. */
  lemma LowerTrim(s: string)
    ensures ToLower(TrimSpace(s)) == TrimSpace(ToLower(s))
  {
    LowerTrimLeft(s);
    LowerTrimRight(TrimLeft(s));
  }

  lemma {:induction false} TrimLeftSplit(s: string) returns (a: string)
    ensures AllSpace(a) && s == a + TrimLeft(s)
    ensures TrimLeft(s) == [] || !IsSpace(TrimLeft(s)[0])
  {
    a := [];
    if s != [] && IsSpace(s[0]) {
      a := TrimLeftSplit(s[1..]);
      a := [s[0]] + a;
      assert s == [s[0]] + s[1..];
    }
  }

  lemma {:induction false} TrimRightSplit(s: string) returns (b: string)
    ensures AllSpace(b) && s == TrimRight(s) + b
    ensures TrimRight(s) == [] || !IsSpace(TrimRight(s)[|TrimRight(s)| - 1])
  {
    b := [];
    if s != [] && IsSpace(s[|s| - 1]) {
      b := TrimRightSplit(s[..|s| - 1]);
      b := b + [s[|s| - 1]];
      assert s == s[..|s| - 1] + [s[|s| - 1]];
    }
  }

  // Trimming takes white space off both ends, and all of it.
  lemma TrimSplit(s: string) returns (a: string, b: string)
    ensures AllSpace(a) && AllSpace(b) && s == a + TrimSpace(s) + b
    ensures var t := TrimSpace(s); t == [] || (!IsSpace(t[0]) && !IsSpace(t[|t| - 1]))
  {
    a := TrimLeftSplit(s);
    b := TrimRightSplit(TrimLeft(s));
    assert TrimSpace(s) != [] ==> TrimLeft(s)[0] == TrimSpace(s)[0];
  }

  // White space is all that trims to nothing.
  lemma TrimmedAway(s: string)
    ensures TrimSpace(s) == "" <==> AllSpace(s)
  {
    var a, b := TrimSplit(s);
    if AllSpace(s) {
      TrimPadded(s, "", "");
      assert s + "" + "" == s;
    }
  }
}
