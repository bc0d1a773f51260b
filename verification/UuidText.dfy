/**
 UUIDs as 16 bytes and as their canonical text (section 4 of RFC 9562), and why comparing the
 text orders them exactly as comparing the bytes does.
 */
module UuidText {
  import opened Keyset

  /** Lexicographic comparison: memcmp on bytes, and byte-wise comparison of text. */
  predicate LexLess<T(==)>(less: (T, T) -> bool, a: seq<T>, b: seq<T>) {
    if a == [] then b != []
    else if b == [] then false
    else less(a[0], b[0]) || (a[0] == b[0] && LexLess(less, a[1..], b[1..]))
  }

  function LexOrder<T(==)>(less: (T, T) -> bool): (seq<T>, seq<T>) -> bool {
    (a, b) => LexLess(less, a, b)
  }

  lemma {:induction false} LexAsymmetric<T(!new)>(less: (T, T) -> bool, a: seq<T>, b: seq<T>)
    requires StrictTotal(less) && LexLess(less, a, b)
    ensures !LexLess(less, b, a)
    decreases |a|
  {
    if a != [] && a[0] == b[0] {
      if LexLess(less, a[1..], b[1..]) {
        LexAsymmetric(less, a[1..], b[1..]);
      }
    }
  }

  lemma {:induction false} LexTransitive<T(!new)>(less: (T, T) -> bool, a: seq<T>, b: seq<T>, c: seq<T>)
    requires StrictTotal(less) && LexLess(less, a, b) && LexLess(less, b, c)
    ensures LexLess(less, a, c)
    decreases |a|
  {
    if a != [] {
      assert Via(a[0], b[0], c[0]);
      if a[0] == b[0] && b[0] == c[0] && !less(a[0], c[0]) {
        LexTransitive(less, a[1..], b[1..], c[1..]);
      }
    }
  }

  lemma {:induction false} LexTotal<T(!new)>(less: (T, T) -> bool, a: seq<T>, b: seq<T>)
    requires StrictTotal(less)
    ensures a == b || LexLess(less, a, b) || LexLess(less, b, a)
    decreases |a|
  {
    if a != [] && b != [] && a[0] == b[0] {
      LexTotal(less, a[1..], b[1..]);
      assert a == [a[0]] + a[1..] && b == [b[0]] + b[1..];
    }
  }

  lemma LexIsStrictTotal<T(!new)>(less: (T, T) -> bool)
    requires StrictTotal(less)
    ensures StrictTotal(LexOrder(less))
  {
    var before := LexOrder(less);
    forall a, b | before(a, b) ensures !before(b, a) {
      LexAsymmetric(less, a, b);
    }
    forall a, b, c | before(a, b) && before(b, c) ensures before(a, c) {
      LexTransitive(less, a, b, c);
    }
    forall a, b ensures a == b || before(a, b) || before(b, a) {
      LexTotal(less, a, b);
    }
  }

  /** Equal-length heads are compared first; the tails decide a tie. */
  lemma {:induction false} LexConcat<T(!new)>(less: (T, T) -> bool, a: seq<T>, b: seq<T>, c: seq<T>, d: seq<T>)
    requires StrictTotal(less) && |a| == |c|
    ensures LexLess(less, a + b, c + d) <==> LexLess(less, a, c) || (a == c && LexLess(less, b, d))
    decreases |a|
  {
    if a == [] {
      assert a + b == b && c + d == d;
    } else {
      assert (a + b)[1..] == a[1..] + b && (c + d)[1..] == c[1..] + d;
      LexConcat(less, a[1..], b, c[1..], d);
      assert a[0] == c[0] && a[1..] == c[1..] ==> a == c by {
        assert a == [a[0]] + a[1..] && c == [c[0]] + c[1..];
      }
    }
  }

  type Byte = n: nat | n < 256

  function ByteLess(): (Byte, Byte) -> bool {
    (a: Byte, b: Byte) => a < b
  }

  function CharLess(): (char, char) -> bool {
    (a: char, b: char) => a < b
  }

  lemma BaseOrders()
    ensures StrictTotal(ByteLess()) && StrictTotal(CharLess())
  {
  }

  type Uuid = u: seq<Byte> | |u| == 16 witness seq(16, _ => 0)

  function HexDigit(n: nat): (c: char)
    requires n < 16
  {
    "0123456789abcdef"[n]
  }

  lemma HexDigitsAscend(m: nat, n: nat)
    requires m < 16 && n < 16
    ensures HexDigit(m) < HexDigit(n) <==> m < n
    ensures HexDigit(m) == HexDigit(n) <==> m == n
  {
  }

  function Hex(bytes: seq<Byte>): (text: string)
    ensures |text| == 2 * |bytes|
  {
    if bytes == [] then "" else [HexDigit(bytes[0] / 16), HexDigit(bytes[0] % 16)] + Hex(bytes[1..])
  }

  /** Lower-case hex in groups of 8-4-4-4-12 digits. */
  function Canonical(u: Uuid): (text: string)
    ensures |text| == 36
  {
    Hex(u[..4]) + ("-" + (Hex(u[4..6]) + ("-" + (Hex(u[6..8]) + ("-" + (Hex(u[8..10]) + ("-" + Hex(u[10..]))))))))
  }

  lemma {:induction false} HexAt(bytes: seq<Byte>, i: nat)
    requires i < |bytes|
    ensures Hex(bytes)[2 * i] == HexDigit(bytes[i] / 16) && Hex(bytes)[2 * i + 1] == HexDigit(bytes[i] % 16)
    decreases |bytes|
  {
    if i > 0 {
      HexAt(bytes[1..], i - 1);
    }
  }

  /** Where the two digits of byte i stand: after 8, 12, 16 and 20 digits there is a hyphen. */
  function DigitsAt(i: nat): nat {
    2 * i + (if i >= 4 then 1 else 0) + (if i >= 6 then 1 else 0) + (if i >= 8 then 1 else 0) + (if i >= 10 then 1 else 0)
  }

  /** The text has the form of section 4 of RFC 9562: 8-4-4-4-12 lower-case digits, two for each byte in order. */
  lemma CanonicalForm(u: Uuid)
    ensures var text := Canonical(u);
            && text[8] == '-' && text[13] == '-' && text[18] == '-' && text[23] == '-'
            && forall i :: 0 <= i < 16 ==> text[DigitsAt(i)] == "0123456789abcdef"[u[i] / 16]
                                           && text[DigitsAt(i) + 1] == "0123456789abcdef"[u[i] % 16]
  {
    forall i | 0 <= i < 16
      ensures Canonical(u)[DigitsAt(i)] == "0123456789abcdef"[u[i] / 16]
              && Canonical(u)[DigitsAt(i) + 1] == "0123456789abcdef"[u[i] % 16]
    {
      DigitsOf(u, i);
    }
  }

  lemma DigitsOf(u: Uuid, i: nat)
    requires i < 16
    ensures Canonical(u)[DigitsAt(i)] == HexDigit(u[i] / 16) && Canonical(u)[DigitsAt(i) + 1] == HexDigit(u[i] % 16)
  {
    if i < 6 {
      EarlyDigits(u, i);
    } else {
      LateDigits(u, i);
    }
  }

  lemma EarlyDigits(u: Uuid, i: nat)
    requires i < 6
    ensures Canonical(u)[DigitsAt(i)] == HexDigit(u[i] / 16) && Canonical(u)[DigitsAt(i) + 1] == HexDigit(u[i] % 16)
  {
    if i < 4 {
      HexAt(u[..4], i);
    } else {
      HexAt(u[4..6], i - 4);
    }
  }

  lemma LateDigits(u: Uuid, i: nat)
    requires 6 <= i < 16
    ensures Canonical(u)[DigitsAt(i)] == HexDigit(u[i] / 16) && Canonical(u)[DigitsAt(i) + 1] == HexDigit(u[i] % 16)
  {
    assert Canonical(u)[14..] == Hex(u[6..8]) + ("-" + (Hex(u[8..10]) + ("-" + Hex(u[10..]))));
    if i < 8 {
      HexAt(u[6..8], i - 6);
    } else if i < 10 {
      HexAt(u[8..10], i - 8);
    } else {
      HexAt(u[10..], i - 10);
    }
  }

  lemma PairOrders(x: string, y: string)
    requires |x| == |y| == 2
    ensures LexLess(CharLess(), x, y) <==> x[0] < y[0] || (x[0] == y[0] && x[1] < y[1])
  {
    assert LexLess(CharLess(), x[1..], y[1..]) <==> x[1] < y[1] by {
      assert x[1..][1..] == [] && y[1..][1..] == [];
    }
  }

  lemma {:induction false} HexOrders(a: seq<Byte>, b: seq<Byte>)
    requires |a| == |b|
    ensures LexLess(CharLess(), Hex(a), Hex(b)) <==> LexLess(ByteLess(), a, b)
    ensures Hex(a) == Hex(b) <==> a == b
    decreases |a|
  {
    if a != [] {
      var x := [HexDigit(a[0] / 16), HexDigit(a[0] % 16)];
      var y := [HexDigit(b[0] / 16), HexDigit(b[0] % 16)];
      HexOrders(a[1..], b[1..]);
      BaseOrders();
      LexConcat(CharLess(), x, Hex(a[1..]), y, Hex(b[1..]));
      HexDigitsAscend(a[0] / 16, b[0] / 16);
      HexDigitsAscend(a[0] % 16, b[0] % 16);
      assert x == y <==> a[0] == b[0];
      PairOrders(x, y);
      assert LexLess(CharLess(), x, y) <==> a[0] < b[0];
      assert a == [a[0]] + a[1..] && b == [b[0]] + b[1..];
      assert (Hex(a) == Hex(b)) <==> (x == y && Hex(a[1..]) == Hex(b[1..])) by {
        assert Hex(a)[..2] == x && Hex(b)[..2] == y && Hex(a)[2..] == Hex(a[1..]) && Hex(b)[2..] == Hex(b[1..]);
      }
    }
  }

  /** One group of digits with the text that follows it. */
  lemma GroupOrders(a: seq<Byte>, b: seq<Byte>, s: string, t: string)
    requires |a| == |b|
    ensures LexLess(CharLess(), Hex(a) + s, Hex(b) + t)
            <==> LexLess(ByteLess(), a, b) || (a == b && LexLess(CharLess(), s, t))
  {
    BaseOrders();
    HexOrders(a, b);
    LexConcat(CharLess(), Hex(a), s, Hex(b), t);
  }

  lemma HyphenOrders(s: string, t: string)
    ensures LexLess(CharLess(), "-" + s, "-" + t) <==> LexLess(CharLess(), s, t)
  {
    assert ("-" + s)[1..] == s && ("-" + t)[1..] == t;
  }

  lemma SplitOrders(a: seq<Byte>, b: seq<Byte>, n: nat)
    requires |a| == |b| && n <= |a|
    ensures LexLess(ByteLess(), a, b)
            <==> LexLess(ByteLess(), a[..n], b[..n]) || (a[..n] == b[..n] && LexLess(ByteLess(), a[n..], b[n..]))
  {
    BaseOrders();
    LexConcat(ByteLess(), a[..n], a[n..], b[..n], b[n..]);
    assert a == a[..n] + a[n..] && b == b[..n] + b[n..];
  }

  /** Canonical text compares in the same strict order as the bytes. */
  lemma TextOrderIsByteOrder(a: Uuid, b: Uuid)
    ensures LexLess(CharLess(), Canonical(a), Canonical(b)) <==> LexLess(ByteLess(), a, b)
  {
    var a3, b3 := Hex(a[6..8]) + ("-" + LastGroups(a)), Hex(b[6..8]) + ("-" + LastGroups(b));
    var a2, b2 := Hex(a[4..6]) + ("-" + a3), Hex(b[4..6]) + ("-" + b3);
    LastGroupsOrder(a, b);
    PairGroupOrders(a, b, 6, LastGroups(a), LastGroups(b));
    PairGroupOrders(a, b, 4, a3, b3);
    HyphenOrders(a2, b2);
    GroupOrders(a[..4], b[..4], "-" + a2, "-" + b2);
    SplitOrders(a, b, 4);
  }

  function LastGroups(u: Uuid): string {
    Hex(u[8..10]) + ("-" + Hex(u[10..]))
  }

  lemma LastGroupsOrder(a: Uuid, b: Uuid)
    ensures LexLess(CharLess(), LastGroups(a), LastGroups(b)) <==> LexLess(ByteLess(), a[8..], b[8..])
  {
    HexOrders(a[10..], b[10..]);
    PairGroupOrders(a, b, 8, Hex(a[10..]), Hex(b[10..]));
  }

  /** One two-byte group and its hyphen, in front of texts x and y that order as the bytes after the group. */
  lemma PairGroupOrders(a: Uuid, b: Uuid, k: nat, x: string, y: string)
    requires k + 2 <= 16 && |x| == |y|
    requires LexLess(CharLess(), x, y) <==> LexLess(ByteLess(), a[k + 2..], b[k + 2..])
    ensures LexLess(CharLess(), Hex(a[k..k + 2]) + ("-" + x), Hex(b[k..k + 2]) + ("-" + y))
            <==> LexLess(ByteLess(), a[k..], b[k..])
  {
    HyphenOrders(x, y);
    GroupOrders(a[k..k + 2], b[k..k + 2], "-" + x, "-" + y);
    SplitOrders(a[k..], b[k..], 2);
    assert a[k..][..2] == a[k..k + 2] && b[k..][..2] == b[k..k + 2] && a[k..][2..] == a[k + 2..] && b[k..][2..] == b[k + 2..];
  }
}
