/** One 64-bit word of a bitset. */
module Words {

  /** A bit position as the machine word that `1 << minor` shifts by. */
  function Amount(k: nat): (i: bv64)
    requires k < 64
    ensures i < 64 && i as nat == k
  {
    if k == 0 then 0 else Amount(k - 1) + 1
  }

  function Mask(i: bv64): bv64
    requires i < 64
  {
    1 << i
  }

  function And(w: bv64, m: bv64): bv64 {
    w & m
  }

  predicate Meets(w: bv64, m: bv64) {
    And(w, m) != 0
  }

  function Or(w: bv64, m: bv64): bv64 {
    w | m
  }

  function AndNot(w: bv64, m: bv64): bv64 {
    w & !m
  }

  predicate Has(w: bv64, i: bv64)
    requires i < 64
  {
    Meets(w, Mask(i))
  }

  function With(w: bv64, i: bv64): bv64
    requires i < 64
  {
    Or(w, Mask(i))
  }

  function Without(w: bv64, i: bv64): bv64
    requires i < 64
  {
    AndNot(w, Mask(i))
  }

  /** Bit `k` of a word. */
  predicate Bit(w: bv64, k: nat)
    requires k < 64
  {
    Has(w, Amount(k))
  }

  lemma MaskMeetsItself(i: bv64)
    requires i < 64
    ensures Meets(Mask(i), Mask(i))
  {
  }

  lemma MasksDisjoint(i: bv64, j: bv64)
    requires i < 64 && j < 64 && i != j
    ensures !Meets(Mask(i), Mask(j))
  {
  }

  lemma OrSame(w: bv64, m: bv64)
    requires Meets(m, m)
    ensures Meets(Or(w, m), m)
  {
  }

  lemma OrDisjoint(w: bv64, a: bv64, m: bv64)
    requires And(a, m) == 0
    ensures And(Or(w, a), m) == And(w, m)
  {
  }

  lemma OrOther(w: bv64, a: bv64, m: bv64)
    requires !Meets(a, m)
    ensures Meets(Or(w, a), m) == Meets(w, m)
  {
    hide And, Or;
    OrDisjoint(w, a, m);
  }

  lemma AndNotSame(w: bv64, m: bv64)
    ensures !Meets(AndNot(w, m), m)
  {
  }

  lemma AndNotDisjoint(w: bv64, a: bv64, m: bv64)
    requires And(a, m) == 0
    ensures And(AndNot(w, a), m) == And(w, m)
  {
  }

  lemma AndNotOther(w: bv64, a: bv64, m: bv64)
    requires !Meets(a, m)
    ensures Meets(AndNot(w, a), m) == Meets(w, m)
  {
    hide And, AndNot;
    AndNotDisjoint(w, a, m);
  }

  lemma WithHas(w: bv64, i: bv64)
    requires i < 64
    ensures Has(With(w, i), i)
  {
    hide Mask, Meets, Or, AndNot;
    MaskMeetsItself(i);
    OrSame(w, Mask(i));
  }

  lemma WithKeeps(w: bv64, i: bv64, j: bv64)
    requires i < 64 && j < 64 && i != j
    ensures Has(With(w, i), j) == Has(w, j)
  {
    hide Mask, Meets, Or, AndNot;
    MasksDisjoint(i, j);
    OrOther(w, Mask(i), Mask(j));
  }

  lemma WithoutHas(w: bv64, i: bv64)
    requires i < 64
    ensures !Has(Without(w, i), i)
  {
    hide Mask, Meets, Or, AndNot;
    AndNotSame(w, Mask(i));
  }

  lemma WithoutKeeps(w: bv64, i: bv64, j: bv64)
    requires i < 64 && j < 64 && i != j
    ensures Has(Without(w, i), j) == Has(w, j)
  {
    hide Mask, Meets, Or, AndNot;
    MasksDisjoint(i, j);
    AndNotOther(w, Mask(i), Mask(j));
  }

  lemma AmountInjective(i: nat, j: nat)
    requires i < 64 && j < 64
    ensures Amount(i) == Amount(j) ==> i == j
  {
  }

  lemma AmountSurjective(i: bv64) returns (k: nat)
    requires i < 64
    ensures k < 64 && Amount(k) == i
  {
    k := i as nat;
    AmountUnique(Amount(k), i);
  }

  lemma AmountUnique(i: bv64, j: bv64)
    requires i < 64 && j < 64 && i as nat == j as nat
    ensures i == j
  {
    RoundTrip(i);
    RoundTrip(j);
  }

  lemma RoundTrip(i: bv64)
    requires i < 64
    ensures (i as nat) as bv64 == i
  {
  }

  lemma ZeroHas(i: bv64)
    requires i < 64
    ensures !Has(0, i)
  {
  }

  /** Setting a bit changes that bit only. */
  lemma SetBit(w: bv64, i: nat, j: nat)
    requires i < 64 && j < 64
    ensures Bit(With(w, Amount(i)), j) <==> i == j || Bit(w, j)
  {
    hide Has, With, Amount;
    if i == j {
      WithHas(w, Amount(i));
    } else {
      AmountInjective(i, j);
      WithKeeps(w, Amount(i), Amount(j));
    }
  }

  /** Clearing a bit changes that bit only. */
  lemma ClearBit(w: bv64, i: nat, j: nat)
    requires i < 64 && j < 64
    ensures Bit(Without(w, Amount(i)), j) <==> i != j && Bit(w, j)
  {
    hide Has, Without, Amount;
    if i == j {
      WithoutHas(w, Amount(i));
    } else {
      AmountInjective(i, j);
      WithoutKeeps(w, Amount(i), Amount(j));
    }
  }

  lemma ZeroWord(k: nat)
    requires k < 64
    ensures !Bit(0, k)
  {
    hide Has, Amount;
    ZeroHas(Amount(k));
  }

  lemma FirstDifference(a: bv64, b: bv64) returns (i: bv64)
    requires a != b
    ensures i < 64 && (a >> i) & 1 != (b >> i) & 1
  {
    var d := a ^ b;
    var j32: bv64 := if d & 0xFFFF_FFFF == 0 then 32 else 0;
    var j16: bv64 := if (d >> j32) & 0xFFFF == 0 then j32 + 16 else j32;
    var j8: bv64 := if (d >> j16) & 0xFF == 0 then j16 + 8 else j16;
    var j4: bv64 := if (d >> j8) & 0xF == 0 then j8 + 4 else j8;
    var j2: bv64 := if (d >> j4) & 0x3 == 0 then j4 + 2 else j4;
    i := if (d >> j2) & 0x1 == 0 then j2 + 1 else j2;
  }

  lemma ShiftedBit(w: bv64, i: bv64)
    requires i < 64
    ensures Has(w, i) <==> (w >> i) & 1 == 1
    ensures (w >> i) & 1 == 0 || (w >> i) & 1 == 1
  {
  }

  function Xor(a: bv64, b: bv64): bv64 {
    a ^ b
  }

  lemma XorNeither(a: bv64, b: bv64, m: bv64)
    requires And(a, m) == 0 && And(b, m) == 0
    ensures And(Xor(a, b), m) == 0
  {
  }

  lemma XorBoth(a: bv64, b: bv64, m: bv64)
    requires And(a, m) == m && And(b, m) == m
    ensures And(Xor(a, b), m) == 0
  {
  }

  lemma XorFirst(a: bv64, b: bv64, m: bv64)
    requires And(a, m) == m && And(b, m) == 0
    ensures And(Xor(a, b), m) == m
  {
  }

  lemma XorSecond(a: bv64, b: bv64, m: bv64)
    requires And(a, m) == 0 && And(b, m) == m
    ensures And(Xor(a, b), m) == m
  {
  }

  lemma AndOneBit(w: bv64, i: bv64)
    requires i < 64
    ensures And(w, Mask(i)) == 0 || And(w, Mask(i)) == Mask(i)
  {
  }

  lemma XorHas(a: bv64, b: bv64, i: bv64)
    requires i < 64
    ensures Has(Xor(a, b), i) <==> Has(a, i) != Has(b, i)
  {
    hide And, Mask, Xor;
    var m := Mask(i);
    AndOneBit(a, i);
    AndOneBit(b, i);
    MaskMeetsItself(i);
    if And(a, m) == m && And(b, m) == m {
      XorBoth(a, b, m);
    } else if And(a, m) == m {
      XorFirst(a, b, m);
    } else if And(b, m) == m {
      XorSecond(a, b, m);
    } else {
      XorNeither(a, b, m);
    }
  }

  /** A bit of an exclusive or. */
  lemma XorBit(a: bv64, b: bv64, k: nat)
    requires k < 64
    ensures Bit(Xor(a, b), k) <==> Bit(a, k) != Bit(b, k)
  {
    hide Has, Amount, Xor;
    XorHas(a, b, Amount(k));
  }

  lemma HasDiffers(a: bv64, b: bv64) returns (i: bv64)
    requires a != b
    ensures i < 64 && Has(a, i) != Has(b, i)
  {
    hide Has;
    i := FirstDifference(a, b);
    ShiftedBit(a, i);
    ShiftedBit(b, i);
  }

  /** Different words differ in some bit. */
  lemma WordsDiffer(a: bv64, b: bv64) returns (k: nat)
    requires a != b
    ensures k < 64 && Bit(a, k) != Bit(b, k)
  {
    hide Has, Amount;
    var i := HasDiffers(a, b);
    k := AmountSurjective(i);
  }
}

/** The bitset of linearized operation ids (src/porcupine/bitset.go): an array of 64-bit words
    that refines a finite set of naturals.  Bits 0-63 are in word 0, the next ones in word 1. */
module Bitset {

  import opened Words

  /** The finite set a sequence of words stands for. */
  function Members(ws: seq<bv64>): set<nat> {
    set p: nat | p < 64 * |ws| && Bit(ws[p / 64], p % 64)
  }

  /** Number of one bits in a word. */
  function OnesCount(w: bv64): nat {
    |set i: nat | i < 64 && Bit(w, i)|
  }

  function XorAll(acc: bv64, ws: seq<bv64>): bv64 {
    if ws == [] then acc else Xor(XorAll(acc, ws[..|ws| - 1]), ws[|ws| - 1])
  }

  function ToWord(n: nat): bv64 {
    (n % 0x1_0000_0000_0000_0000) as bv64
  }

  /** The bucket key of a sequence of words: population count folded with every word. */
  function HashOf(ws: seq<bv64>): bv64 {
    XorAll(ToWord(|Members(ws)|), ws)
  }

  /** How many words have a bit. */
  ghost function WordsWith(ws: seq<bv64>, k: nat): nat
    requires k < 64
  {
    if ws == [] then 0 else WordsWith(ws[..|ws| - 1], k) + if Bit(ws[|ws| - 1], k) then 1 else 0
  }

  lemma {:induction false} XorAllBit(acc: bv64, ws: seq<bv64>, k: nat)
    requires k < 64
    ensures Bit(XorAll(acc, ws), k) <==> (if WordsWith(ws, k) % 2 == 0 then Bit(acc, k) else !Bit(acc, k))
  {
    hide Bit, Xor;
    if ws != [] {
      XorAllBit(acc, ws[..|ws| - 1], k);
      XorBit(XorAll(acc, ws[..|ws| - 1]), ws[|ws| - 1], k);
    }
  }

  /** A bit of the hash is that of the size of the set, turned over once for every word that has it. */
  lemma HashBit(ws: seq<bv64>, k: nat)
    requires k < 64
    ensures Bit(HashOf(ws), k) <==>
            if WordsWith(ws, k) % 2 == 0 then Bit(ToWord(|Members(ws)|), k) else !Bit(ToWord(|Members(ws)|), k)
  {
    hide Bit, Members, ToWord, WordsWith, XorAll;
    XorAllBit(ToWord(|Members(ws)|), ws, k);
  }

  // ----- sequences of words

  /** Equal-length words standing for equal sets are equal words, so they share a bucket. */
  lemma SameMembersSameWords(xs: seq<bv64>, ys: seq<bv64>)
    requires |xs| == |ys| && Members(xs) == Members(ys)
    ensures xs == ys && HashOf(xs) == HashOf(ys)
  {
    hide Bit, HashOf;
    forall k: nat | k < |xs|
      ensures xs[k] == ys[k]
    {
      if xs[k] != ys[k] {
        var i := WordsDiffer(xs[k], ys[k]);
        MemberBit(xs, k, i);
        MemberBit(ys, k, i);
      }
    }
  }

  lemma MemberBit(ws: seq<bv64>, k: nat, i: nat)
    requires k < |ws| && i < 64
    ensures 64 * k + i in Members(ws) <==> Bit(ws[k], i)
  {
    hide Bit;
    var p := 64 * k + i;
    assert p / 64 == k && p % 64 == i;
  }

  lemma MembersOfUpdate(ws: seq<bv64>, pos: nat, w: bv64)
    requires pos < 64 * |ws|
    requires forall j: nat | j < 64 && j != pos % 64 :: Bit(w, j) == Bit(ws[pos / 64], j)
    ensures Members(ws[pos / 64 := w])
         == if Bit(w, pos % 64) then Members(ws) + {pos} else Members(ws) - {pos}
  {
    hide Bit;
    var us := ws[pos / 64 := w];
    forall p: nat | p < 64 * |ws| && p != pos
      ensures Bit(us[p / 64], p % 64) == Bit(ws[p / 64], p % 64)
    {
      if p / 64 == pos / 64 {
        assert p % 64 != pos % 64;
      }
    }
  }

  lemma {:induction false} ShiftedCardinality(s: set<nat>, t: set<nat>, d: nat)
    requires forall x: nat :: x in t <==> x >= d && x - d in s
    ensures |s| == |t|
  {
    if s == {} {
      assert t == {};
    } else {
      var x :| x in s;
      assert x + d in t by { assert (x + d) - d == x; }
      ShiftedCardinality(s - {x}, t - {x + d}, d);
      assert |s - {x}| == |s| - 1 && |t - {x + d}| == |t| - 1;
    }
  }

  /** Appending a word adds exactly that word's one bits to the set. */
  lemma MembersOfAppend(ws: seq<bv64>, w: bv64)
    ensures |Members(ws + [w])| == |Members(ws)| + OnesCount(w)
  {
    hide Bit, Members, OnesCount;
    var all := Members(ws + [w]);
    var high := set p | p in all && p >= 64 * |ws|;
    HighMembers(ws, w, high);
    LowMembers(ws, w);
    MembersBound(ws);
    assert Members(ws) + high == all && Members(ws) !! high;
  }

  lemma MembersBound(ws: seq<bv64>)
    ensures forall p | p in Members(ws) :: p < 64 * |ws|
  {
    hide Bit;
  }

  lemma HighMembers(ws: seq<bv64>, w: bv64, high: set<nat>)
    requires high == set p | p in Members(ws + [w]) && p >= 64 * |ws|
    ensures |high| == OnesCount(w)
  {
    hide Bit;
    var low := set i: nat | i < 64 && Bit(w, i);
    forall p: nat
      ensures p in high <==> p >= 64 * |ws| && p - 64 * |ws| in low
    {
      if 64 * |ws| <= p < 64 * |ws| + 64 {
        MemberBit(ws + [w], |ws|, p - 64 * |ws|);
      }
    }
    ShiftedCardinality(low, high, 64 * |ws|);
  }

  lemma LowMembers(ws: seq<bv64>, w: bv64)
    ensures forall p: nat | p < 64 * |ws| :: p in Members(ws + [w]) <==> p in Members(ws)
  {
    hide Bit;
    forall p: nat | p < 64 * |ws|
      ensures p in Members(ws + [w]) <==> p in Members(ws)
    {
      MemberBit(ws + [w], p / 64, p % 64);
      MemberBit(ws, p / 64, p % 64);
      assert 64 * (p / 64) + p % 64 == p;
    }
  }

  // ----- the operations

  /** `newBitset`: enough zeroed words for `bits` positions. */
  method NewBitset(bits: nat) returns (b: array<bv64>)
    ensures fresh(b) && bits <= 64 * b.Length < bits + 64
    ensures Members(b[..]) == {}
  {
    var extra := if bits % 64 != 0 then 1 else 0;
    var chunks := bits / 64 + extra;
    b := new bv64[chunks](_ => 0);
    forall p: nat | p < 64 * b.Length
      ensures !Bit(b[..][p / 64], p % 64)
    {
      ZeroWord(p % 64);
    }
  }

  /** `clone`: a separate array with the same contents. */
  method Clone(b: array<bv64>) returns (c: array<bv64>)
    ensures fresh(c) && c[..] == b[..]
  {
    c := new bv64[b.Length];
    for i := 0 to b.Length
      invariant c[..i] == b[..i]
    {
      c[i] := b[i];
    }
    assert c[..] == c[..b.Length] == b[..b.Length] == b[..];
  }

  /** `set`: in place, adds `pos` and nothing else. */
  method Set(b: array<bv64>, pos: nat)
    requires pos < 64 * b.Length
    modifies b
    ensures Members(b[..]) == old(Members(b[..])) + {pos}
  {
    var major, minor := pos / 64, pos % 64;
    ghost var ws := b[..];
    b[major] := With(b[major], Amount(minor));
    ghost var w := b[major];
    forall j: nat | j < 64
      ensures Bit(w, j) <==> minor == j || Bit(ws[major], j)
    {
      SetBit(ws[major], minor, j);
    }
    assert b[..] == ws[major := w];
    MembersOfUpdate(ws, pos, w);
  }

  /** `clear`: in place, removes `pos` and nothing else. */
  method Clear(b: array<bv64>, pos: nat)
    requires pos < 64 * b.Length
    modifies b
    ensures Members(b[..]) == old(Members(b[..])) - {pos}
  {
    var major, minor := pos / 64, pos % 64;
    ghost var ws := b[..];
    b[major] := Without(b[major], Amount(minor));
    ghost var w := b[major];
    forall j: nat | j < 64
      ensures Bit(w, j) <==> minor != j && Bit(ws[major], j)
    {
      ClearBit(ws[major], minor, j);
    }
    assert b[..] == ws[major := w];
    MembersOfUpdate(ws, pos, w);
  }

  method Get(b: array<bv64>, pos: nat) returns (r: bool)
    requires pos < 64 * b.Length
    ensures r <==> pos in Members(b[..])
  {
    hide Has;
    var major, minor := pos / 64, pos % 64;
    r := Has(b[major], Amount(minor));
    assert r <==> Bit(b[..][pos / 64], pos % 64);
  }

  /** `popcnt` is the cardinality of the set. */
  method Popcnt(b: array<bv64>) returns (total: nat)
    ensures total == |Members(b[..])|
  {
    total := 0;
    for i := 0 to b.Length
      invariant total == |Members(b[..i])|
    {
      MembersOfAppend(b[..i], b[i]);
      assert b[..i + 1] == b[..i] + [b[i]];
      total := total + OnesCount(b[i]);
    }
    assert b[..b.Length] == b[..];
  }

  method Hash(b: array<bv64>) returns (hash: bv64)
    ensures hash == HashOf(b[..])
    ensures forall k: nat | k < 64 ::
              Bit(hash, k) <==> (if WordsWith(b[..], k) % 2 == 0 then Bit(ToWord(|Members(b[..])|), k)
                                 else !Bit(ToWord(|Members(b[..])|), k))
  {
    hide Members, ToWord, Bit, WordsWith, Xor;
    forall k: nat | k < 64
      ensures Bit(HashOf(b[..]), k) <==>
              if WordsWith(b[..], k) % 2 == 0 then Bit(ToWord(|Members(b[..])|), k) else !Bit(ToWord(|Members(b[..])|), k)
    {
      HashBit(b[..], k);
    }
    var total := Popcnt(b);
    hash := ToWord(total);
    for i := 0 to b.Length
      invariant hash == XorAll(ToWord(total), b[..i])
    {
      assert b[..i + 1][..i] == b[..i];
      hash := Xor(hash, b[i]);
    }
    assert b[..b.Length] == b[..];
  }

  /** `equals` is set equality, between bitsets of one size. */
  method Equals(b: array<bv64>, b2: array<bv64>) returns (same: bool)
    ensures same <==> b[..] == b2[..]
    ensures same <==> b.Length == b2.Length && Members(b[..]) == Members(b2[..])
  {
    if b.Length == b2.Length && Members(b[..]) == Members(b2[..]) {
      SameMembersSameWords(b[..], b2[..]);
    }
    if b.Length != b2.Length {
      return false;
    }
    for i := 0 to b.Length
      invariant b[..i] == b2[..i]
    {
      if b[i] != b2[i] {
        assert b[..][i] != b2[..][i];
        return false;
      }
      assert b[..i + 1] == b[..i] + [b[i]] && b2[..i + 1] == b2[..i] + [b2[i]];
    }
    assert b[..] == b[..b.Length] == b2[..b.Length] == b2[..];
    return true;
  }
}
