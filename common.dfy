/** Fixed-width integers, Option, and the ship records shared by every part of the round engine. */
module Common {

  const U16_MAX: int := 0xFFFF
  const I16_MIN: int := -0x8000
  const I16_MAX: int := 0x7FFF
  const U32_MAX: int := 0xFFFF_FFFF
  const U64_MAX: int := 0xFFFF_FFFF_FFFF_FFFF

  type u8 = x: int | 0 <= x <= 0xFF
  type u16 = x: int | 0 <= x <= U16_MAX
  type i16 = x: int | I16_MIN <= x <= I16_MAX
  type u32 = x: int | 0 <= x <= U32_MAX
  type u64 = x: int | 0 <= x <= U64_MAX

  datatype Option<T> = None | Some(value: T)

  function Min(a: int, b: int): int { if a <= b then a else b }
  function Max(a: int, b: int): int { if a <= b then b else a }

  /** `u16::saturating_add` */
  function SatAddU16(a: u16, b: u16): (r: u16)
    ensures a + b <= U16_MAX ==> r == a + b
    ensures a + b > U16_MAX ==> r == U16_MAX
  {
    if a + b <= U16_MAX then a + b else U16_MAX
  }

  /** `u16::saturating_sub` */
  function SatSubU16(a: u16, b: u16): (r: u16)
    ensures b <= a ==> r == a - b
    ensures a < b ==> r == 0
  {
    if b <= a then a - b else 0
  }

  /** `u32::saturating_add` */
  function SatAddU32(a: u32, b: u32): (r: u32)
    ensures a + b <= U32_MAX ==> r == a + b
    ensures a + b > U32_MAX ==> r == U32_MAX
  {
    if a + b <= U32_MAX then a + b else U32_MAX
  }

  /** `u32::saturating_mul` */
  function SatMulU32(a: u32, b: u32): (r: u32)
    ensures a * b <= U32_MAX ==> r == a * b
    ensures a * b > U32_MAX ==> r == U32_MAX
  {
    if a * b <= U32_MAX then a * b else U32_MAX
  }

  /** Hitpoints and capacitor of a ship or lifeless thing (`Status`, three `u16`). */
  datatype Status = Status(capacitor: u16, armor: u16, structure: u16)

  type LayoutId = string
  type ModuleId = string
  type Solarsystem = string

  /** The modules equipped on a ship; instructions refer to slots by position. */
  datatype Fitting = Fitting(
    layout: LayoutId,
    slotsTargeted: seq<ModuleId>,
    slotsUntargeted: seq<ModuleId>,
    slotsPassive: seq<ModuleId>)

  datatype NpcFaction = Guards | Pirates

  datatype Service = Dock | Jump

  /** `s` with index `i` taken out and the rest kept in order (`Vec::remove`). */
  function Without<T>(s: seq<T>, i: nat): (r: seq<T>)
    requires i < |s|
    ensures |r| == |s| - 1
    ensures forall j :: 0 <= j < i ==> r[j] == s[j]
    ensures forall j :: i <= j < |r| ==> r[j] == s[j + 1]
  {
    s[..i] + s[i + 1..]
  }

  /** Every key of `keys`, mapped to `value`. */
  function LocatedAt<K, V>(keys: seq<K>, value: V): (r: map<K, V>)
    ensures r.Keys == set k | k in keys
    ensures forall k :: k in r ==> r[k] == value
  {
    map k | k in keys :: value
  }

  /** Placing one more key is an update of the map. */
  lemma LocatedAtSnoc<K, V>(m: map<K, V>, keys: seq<K>, key: K, value: V)
    ensures (m + LocatedAt(keys, value))[key := value] == m + LocatedAt(keys + [key], value)
  {
    var l := (m + LocatedAt(keys, value))[key := value];
    var r := m + LocatedAt(keys + [key], value);
    assert l.Keys == r.Keys;
  }

  /** Placing keys puts every one of them at the value and keeps every other key's entry. */
  lemma LocatedAtOverrides<K, V>(m: map<K, V>, keys: seq<K>, value: V)
    ensures var l := m + LocatedAt(keys, value);
      && (forall k :: k in l <==> k in m || k in keys)
      && (forall k :: k in keys ==> l[k] == value)
      && (forall k :: k in m && k !in keys ==> l[k] == m[k])
  {
  }

  /** `a` can be obtained from `b` by deleting elements. */
  ghost predicate Subsequence<T>(a: seq<T>, b: seq<T>)
    decreases |b|
  {
    if a == [] then true
    else if b == [] then false
    else (a[0] == b[0] && Subsequence(a[1..], b[1..])) || Subsequence(a, b[1..])
  }

  lemma {:induction false} SubsequenceRefl<T>(a: seq<T>)
    ensures Subsequence(a, a)
    decreases |a|
  {
    if a != [] {
      SubsequenceRefl(a[1..]);
    }
  }

  /** Appending to both sides, or only to the longer one, keeps the relation. */
  lemma {:induction false} SubsequenceSnoc<T>(a: seq<T>, b: seq<T>, x: T, keep: bool)
    requires Subsequence(a, b)
    ensures Subsequence(if keep then a + [x] else a, b + [x])
    decreases |b|
  {
    if keep {
      if a == [] {
        if b == [] {
          assert Subsequence([x][1..], [x][1..]);
        } else {
          assert ([] + [x])[..] == [x];
          SubsequenceSnoc([], b[1..], x, true);
          assert (b + [x])[1..] == b[1..] + [x];
        }
      } else {
        assert b != [];
        assert (a + [x])[0] == a[0];
        assert (a + [x])[1..] == a[1..] + [x];
        assert (b + [x])[1..] == b[1..] + [x];
        if a[0] == b[0] && Subsequence(a[1..], b[1..]) {
          SubsequenceSnoc(a[1..], b[1..], x, true);
        } else {
          SubsequenceSnoc(a, b[1..], x, true);
        }
      }
    } else {
      if a != [] {
        assert b != [];
        assert (b + [x])[0] == b[0];
        assert (b + [x])[1..] == b[1..] + [x];
        if a[0] == b[0] && Subsequence(a[1..], b[1..]) {
          SubsequenceSnoc(a[1..], b[1..], x, false);
        } else {
          SubsequenceSnoc(a, b[1..], x, false);
        }
      }
    }
  }
}
