/** Keys of the evidence store and their order: evidence/pool.go. */
module EvidenceKeys {

  type Key = seq<nat>

  /** Heights are non-negative 64-bit integers. */
  type Height = n: nat | n < 0x8000_0000_0000_0000

  const SLASH := 47

  //---------------------------------------------------------------------------
  // The order of the store: bytes from left to right, a prefix first

  predicate LexLess(a: Key, b: Key) {
    b != [] && (a == [] || a[0] < b[0] || (a[0] == b[0] && LexLess(a[1..], b[1..])))
  }

  lemma {:induction false} LexTotal(a: Key, b: Key)
    ensures a == b || LexLess(a, b) || LexLess(b, a)
  {
    if a != [] && b != [] && a[0] == b[0] {
      LexTotal(a[1..], b[1..]);
      assert a == [a[0]] + a[1..] && b == [b[0]] + b[1..];
    }
  }

  lemma {:induction false} LexTransitive(a: Key, b: Key, c: Key)
    requires LexLess(a, b) && LexLess(b, c)
    ensures LexLess(a, c)
  {
    if a != [] && a[0] == b[0] == c[0] {
      LexTransitive(a[1..], b[1..], c[1..]);
    }
  }

  lemma {:induction false} LexAsymmetric(a: Key, b: Key)
    requires LexLess(a, b)
    ensures a != b && !LexLess(b, a)
  {
    if a != [] && a[0] == b[0] {
      LexAsymmetric(a[1..], b[1..]);
    }
  }

  /** The first difference decides. */
  lemma {:induction false} LexAt(a: Key, b: Key, i: nat)
    requires i < |a| && i < |b| && a[..i] == b[..i] && a[i] < b[i]
    ensures LexLess(a, b)
  {
    if i > 0 {
      assert a[0] == a[..i][0] && b[0] == b[..i][0];
      assert a[1..][..i - 1] == a[..i][1..] && b[1..][..i - 1] == b[..i][1..];
      LexAt(a[1..], b[1..], i - 1);
    }
  }

  //---------------------------------------------------------------------------
  // Fixed-width hexadecimal

  function Pow16(w: nat): nat {
    if w == 0 then 1 else 16 * Pow16(w - 1)
  }

  /** The character of a hexadecimal digit, in ASCII. */
  function Digit(d: nat): nat {
    if d < 10 then 48 + d else 55 + d
  }

  function Hex(h: nat, w: nat): (r: Key)
    ensures |r| == w
  {
    if w == 0 then [] else Hex(h / 16, w - 1) + [Digit(h % 16)]
  }

  /** In fixed width, a smaller number is smaller at the first digit where it differs. */
  lemma {:induction false} HexOrder(a: nat, b: nat, w: nat) returns (i: nat)
    requires a < b < Pow16(w)
    ensures i < w && Hex(a, w)[..i] == Hex(b, w)[..i] && Hex(a, w)[i] < Hex(b, w)[i]
    decreases w
  {
    if a / 16 == b / 16 {
      i := w - 1;
    } else {
      i := HexOrder(a / 16, b / 16, w - 1);
      assert Hex(a, w)[..i] == Hex(a / 16, w - 1)[..i];
      assert Hex(b, w)[..i] == Hex(b / 16, w - 1)[..i];
    }
  }

  lemma HeightFits()
    ensures Pow16(16) == 0x1_0000_0000_0000_0000
  {
    assert Pow16(4) == 0x1_0000;
    assert Pow16(8) == 0x1_0000_0000;
    assert Pow16(12) == 0x1_0000_0000_0000;
  }

  //---------------------------------------------------------------------------
  // Keys

  function KeySuffix(height: Height, hash: Key): Key {
    Hex(height, 16) + [SLASH] + hash
  }

  /** The store keeps lower heights first. */
  lemma KeysOrderHeights(g: Height, a: Key, h: Height, b: Key)
    requires g < h
    ensures LexLess(KeySuffix(g, a), KeySuffix(h, b))
  {
    HeightFits();
    var i := HexOrder(g, h, 16);
    var x, y := KeySuffix(g, a), KeySuffix(h, b);
    assert x[..i] == Hex(g, 16)[..i] && y[..i] == Hex(h, 16)[..i];
    LexAt(x, y, i);
  }

  /** Different heights or hashes have different keys. */
  lemma KeysInjective(g: Height, a: Key, h: Height, b: Key)
    requires KeySuffix(g, a) == KeySuffix(h, b)
    ensures g == h && a == b
  {
    if g < h {
      KeysOrderHeights(g, a, h, b);
      LexAsymmetric(KeySuffix(g, a), KeySuffix(h, b));
    } else if h < g {
      KeysOrderHeights(h, b, g, a);
      LexAsymmetric(KeySuffix(h, b), KeySuffix(g, a));
    }
    assert KeySuffix(g, a)[17..] == a && KeySuffix(h, b)[17..] == b;
  }

  //---------------------------------------------------------------------------
  // Iteration

  ghost predicate InOrder(s: seq<Key>) {
    forall i, j :: 0 <= i < j < |s| ==> LexLess(s[i], s[j])
  }

  function InsertKey(s: seq<Key>, k: Key): (r: seq<Key>)
    ensures |r| == |s| + 1
    ensures forall x :: x in r <==> x == k || x in s
  {
    if s == [] || LexLess(k, s[0]) then [k] + s
    else
      assert s == [s[0]] + s[1..];
      [s[0]] + InsertKey(s[1..], k)
  }

  lemma {:induction false} InsertKeepsOrder(s: seq<Key>, k: Key)
    requires InOrder(s) && k !in s
    ensures InOrder(InsertKey(s, k))
    decreases |s|
  {
    if s != [] {
      LexTotal(k, s[0]);
      if LexLess(k, s[0]) {
        forall j | 0 < j < |s| ensures LexLess(k, s[j]) {
          LexTransitive(k, s[0], s[j]);
        }
      } else {
        InsertKeepsOrder(s[1..], k);
        var rest := InsertKey(s[1..], k);
        forall j | 0 <= j < |rest| ensures LexLess(s[0], rest[j]) {
          assert rest[j] in rest;
          if rest[j] != k {
            var n :| 0 <= n < |s[1..]| && s[1..][n] == rest[j];
            assert s[n + 1] == rest[j];
          }
        }
      }
    }
  }

  lemma OrderedKeys(keys: set<Key>) returns (s: seq<Key>)
    ensures InOrder(s) && |s| == |keys| && forall k :: k in s <==> k in keys
  {
    if keys == {} {
      return [];
    }
    var k :| k in keys;
    s := OrderedKeys(keys - {k});
    InsertKeepsOrder(s, k);
    s := InsertKey(s, k);
  }

  /** The keys as the store's iterator gives them. */
  method Iterate(keys: set<Key>) returns (s: seq<Key>)
    ensures InOrder(s) && |s| == |keys| && forall k :: k in s <==> k in keys
  {
    s := [];
    var todo := keys;
    while todo != {}
      invariant todo <= keys && InOrder(s) && |s| == |keys| - |todo|
      invariant forall k :: k in s <==> k in keys && k !in todo
      decreases todo
    {
      var k :| k in todo;
      InsertKeepsOrder(s, k);
      s := InsertKey(s, k);
      todo := todo - {k};
    }
  }
}
