/**
  * The hexadecimal keypad (src/chip8/key.rs). A key mask is a `u16` whose
  * bit i is set while key i is held; all sixteen bits name keys, so a mask
  * is exactly the set of the held key numbers, and that set is what the
  * model works with: `keys & (1 << i) != 0` is `i in keys`, `a & b` is
  * `a * b`, `a & !b` is `a - b`.
  */
module KeyMask {
  import opened Bits

  /** The number of keys, one per bit of a `u16`. */
  const KEY_COUNT: nat := 16

  /** Rust's `Keys = u16`: the numbers of the held keys. */
  type Keys = s: set<nat> | forall k | k in s :: k < KEY_COUNT

  /** The sixteen keys; each key's `u16` discriminant is its one-bit mask. */
  datatype Key =
    | Key0 | Key1 | Key2 | Key3 | Key4 | Key5 | Key6 | Key7
    | Key8 | Key9 | KeyA | KeyB | KeyC | KeyD | KeyE | KeyF
  {
    /** The hexadecimal digit printed on the key. */
    function Number(): (n: U8)
      ensures n < KEY_COUNT
    {
      match this
      case Key0 => 0x0 case Key1 => 0x1 case Key2 => 0x2 case Key3 => 0x3
      case Key4 => 0x4 case Key5 => 0x5 case Key6 => 0x6 case Key7 => 0x7
      case Key8 => 0x8 case Key9 => 0x9 case KeyA => 0xA case KeyB => 0xB
      case KeyC => 0xC case KeyD => 0xD case KeyE => 0xE case KeyF => 0xF
    }

    /** The value of `key as u16`, the discriminant `1 << n`: the mask holding this key alone. */
    function Mask(): (m: Keys)
      ensures m == KeyNumberToKeys(Number())
    {
      match this
      case Key0 => {0x0} case Key1 => {0x1} case Key2 => {0x2} case Key3 => {0x3}
      case Key4 => {0x4} case Key5 => {0x5} case Key6 => {0x6} case Key7 => {0x7}
      case Key8 => {0x8} case Key9 => {0x9} case KeyA => {0xA} case KeyB => {0xB}
      case KeyC => {0xC} case KeyD => {0xD} case KeyE => {0xE} case KeyF => {0xF}
    }
  }

  /** `key_number_to_keys`: the mask holding only key `x`, `1 << x`; the empty mask when `x` names no key. */
  function KeyNumberToKeys(x: U8): (k: Keys)
    ensures (k != {}) <==> x < KEY_COUNT
    ensures forall i :: i in k <==> i == x && x < KEY_COUNT
  {
    if x > 15 then {} else {x}
  }

  /** `keys_has_any_key`: whether the two masks hold a key in common, `keys1 & keys2 != 0`. */
  function KeysHasAnyKey(keys1: Keys, keys2: Keys): (r: bool)
    ensures r <==> exists i :: i in keys1 && i in keys2
  {
    var both := keys1 * keys2;
    if both != {} then
      var i :| i in both;
      true
    else
      assert forall i :: !(i in keys1 && i in keys2) by {
        forall i ensures !(i in keys1 && i in keys2) {
          assert i in keys1 && i in keys2 ==> i in both;
        }
      }
      false
  }

  /** The first held key at or after `i`, and 0 when there is none: the search of `keys_to_key_number`. */
  function FirstKeyFrom(keys: Keys, i: nat): (n: U8)
    requires i <= KEY_COUNT
    ensures n < KEY_COUNT
    ensures (i <= n && n in keys && forall k | i <= k < n :: k !in keys) ||
            (n == 0 && forall k | i <= k < KEY_COUNT :: k !in keys)
    decreases KEY_COUNT - i
  {
    if i == KEY_COUNT then 0
    else if i in keys then i
    else FirstKeyFrom(keys, i + 1)
  }

  /** The number of the lowest held key, and 0 for the empty mask. */
  function KeysToKeyNumber(keys: Keys): (n: U8)
    ensures n < KEY_COUNT
    ensures keys != {} ==> n in keys
    ensures forall k | k in keys :: n <= k
    ensures keys == {} ==> n == 0
  {
    FirstKeyFrom(keys, 0)
  }

  /**
    * `keys_to_key_number`: the loop over the sixteen keys, returning the
    * first one held, and 0 after the loop.
    */
  method FindKeyNumber(keys: Keys) returns (n: U8)
    ensures n == KeysToKeyNumber(keys)
  {
    for i := 0 to KEY_COUNT
      invariant FirstKeyFrom(keys, i) == FirstKeyFrom(keys, 0)
    {
      if i in keys {
        return i;
      }
    }
    return 0;
  }

  /** Holding keys in common is symmetric. */
  lemma KeysHasAnyKeySymmetric(keys1: Keys, keys2: Keys)
    ensures KeysHasAnyKey(keys1, keys2) == KeysHasAnyKey(keys2, keys1)
  {
  }

  /** Converting a key number to its mask and back is the identity on the sixteen keys. */
  lemma KeyNumberRoundTrip(i: U8)
    requires i < KEY_COUNT
    ensures KeysToKeyNumber(KeyNumberToKeys(i)) == i
    ensures KeysHasAnyKey(KeyNumberToKeys(i), KeyNumberToKeys(i))
  {
    assert i in KeyNumberToKeys(i);
  }

  /** Each key's discriminant is the mask `key_number_to_keys` gives its digit, and distinct keys have distinct digits. */
  lemma KeyMasksMatchNumbers(a: Key, b: Key)
    ensures a.Mask() == KeyNumberToKeys(a.Number())
    ensures a.Number() == b.Number() ==> a == b
  {
  }

  /** Key `v` is held exactly when the mask shares a key with the one-key mask of `v`. */
  lemma HeldIffSharesKey(keys: Keys, v: U8)
    requires v < KEY_COUNT
    ensures v in keys <==> KeysHasAnyKey(keys, KeyNumberToKeys(v))
  {
    assert v in KeyNumberToKeys(v);
  }

  /** `keys & !previous`: the keys held now that were not held before. */
  function NewKeys(previous: Keys, keys: Keys): (pressed: Keys)
    ensures pressed <= keys && pressed !! previous
    ensures keys <= previous + pressed
  {
    keys - previous
  }

  /**
    * The key number of the newly pressed keys, when there are any, is the
    * lowest key that went down.
    */
  lemma LowestNewKey(previous: Keys, keys: Keys)
    requires NewKeys(previous, keys) != {}
    ensures var n := KeysToKeyNumber(NewKeys(previous, keys));
            n in keys && n !in previous &&
            forall k | k in keys && k !in previous :: n <= k
  {
  }
}
