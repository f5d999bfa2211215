/**
 * The system property area of bionic's system_properties.c: a fixed-capacity,
 * append-only table of (name, value) slots, updated in place.
 *
 * The area holds a count, an area serial, a table of contents whose entries
 * pack a name length (top 8 bits) with the place of the slot (low 24 bits),
 * and the slots themselves, each with a serial packing the value length (top
 * 8 bits) with a change counter (low 24 bits). Unsigned 32-bit fields are
 * naturals kept below 2^32, with the wrap-around written out. The slot's byte
 * offset from the area is represented by the slot index.
 *
 * C strings passed by address (the names and values given to add, update and
 * set) are modelled by the bytes readable there; a string whose length is
 * taken with strlen is modelled by its characters before the terminating NUL.
 */
module SystemProperties {
  import opened Wrappers

  const Bit24: nat := 0x100_0000
  const Bit32: nat := 0x1_0000_0000

  /**
   * PROP_NAME_MAX, PROP_VALUE_MAX and PA_COUNT_MAX, which come from a header
   * that is not part of this model. Lengths below the maxima must fit in the
   * 8 bits they are packed into, and slot places in 24 bits.
   */
  datatype Limits = Limits(nameMax: nat, valueMax: nat, countMax: nat) {
    predicate Sane() {
      1 <= nameMax <= 256 && 1 <= valueMax <= 256 && countMax < Bit24
    }
  }

  /** A table-of-contents entry: `(namelen << 24) | place`, for a place below 2^24. */
  function TocEntry(nameLen: nat, slot: nat): nat {
    nameLen * Bit24 + slot
  }

  /** TOC_NAME_LEN: the top 8 bits. */
  function TocNameLen(entry: nat): nat {
    entry / Bit24
  }

  /** TOC_TO_INFO: the low 24 bits, the slot's place. */
  function TocSlot(entry: nat): nat {
    entry % Bit24
  }

  /** Splitting a packed word gives back its two fields. */
  lemma PackRoundTrip(high: nat, low: nat)
    requires low < Bit24
    ensures (high * Bit24 + low) / Bit24 == high
    ensures (high * Bit24 + low) % Bit24 == low
  {
    var w := high * Bit24 + low;
    var q, r := w / Bit24, w % Bit24;
    assert w == q * Bit24 + r && 0 <= r < Bit24;
    assert (high - q) * Bit24 == r - low;
  }

  /** A table-of-contents entry decodes to the name length and place it was built from. */
  lemma TocRoundTrip(nameLen: nat, slot: nat)
    requires nameLen < 256 && slot < Bit24
    ensures TocNameLen(TocEntry(nameLen, slot)) == nameLen
    ensures TocSlot(TocEntry(nameLen, slot)) == slot
    ensures TocEntry(nameLen, slot) < Bit32
  {
    PackRoundTrip(nameLen, slot);
  }

  /** SERIAL_VALUE_LEN: the top 8 bits of a slot serial. */
  function SerialValueLen(serial: nat): nat {
    serial / Bit24
  }

  /** SERIAL_DIRTY: the low bit, set while a value is being rewritten. */
  predicate SerialDirty(serial: nat) {
    serial % 2 == 1
  }

  /** `serial | 1`. */
  function SetDirty(serial: nat): nat {
    if serial % 2 == 0 then serial + 1 else serial
  }

  /** The serial update writes: `(len << 24) | ((dirty + 1) & 0xffffff)` with dirty = `serial | 1`. */
  function UpdatedSerial(serial: nat, len: nat): nat {
    len * Bit24 + (SetDirty(serial) + 1) % Bit24
  }

  /** A word and its low 24 bits have the same low bit. */
  lemma LowBitKept(high: nat, low: nat)
    ensures (high * Bit24 + low) % 2 == low % 2
  {
    assert high * Bit24 + low == 2 * (high * 0x80_0000) + low;
  }

  /** The change counter after `| 1` and `+ 1`: even, and not the counter before. */
  lemma NextCounter(s: nat, c: nat)
    requires s < Bit24 && (c == 1 || c == 2) && (s + c) % 2 == 0
    ensures (s + c) % Bit24 % 2 == 0 && (s + c) % Bit24 != s
  {
    if s + c < Bit24 {
      PackRoundTrip(0, s + c);
    } else {
      PackRoundTrip(1, s + c - Bit24);
    }
  }

  /**
   * The serial after an update is a 32-bit word that is clean, carries the
   * new value length, and differs from the serial before it.
   */
  lemma UpdatedSerialFacts(serial: nat, len: nat)
    requires serial < Bit32 && len < 256
    ensures UpdatedSerial(serial, len) < Bit32
    ensures !SerialDirty(UpdatedSerial(serial, len))
    ensures SerialValueLen(UpdatedSerial(serial, len)) == len
    ensures UpdatedSerial(serial, len) != serial
  {
    var h, s := serial / Bit24, serial % Bit24;
    var c := if serial % 2 == 0 then 2 else 1;
    LowBitKept(h, s);
    assert SetDirty(serial) + 1 == h * Bit24 + (s + c);
    NextCounter(s, c);
    var low := (s + c) % Bit24;
    if s + c < Bit24 {
      PackRoundTrip(h, s + c);
    } else {
      PackRoundTrip(h + 1, s + c - Bit24);
      assert h * Bit24 + (s + c) == (h + 1) * Bit24 + (s + c - Bit24);
    }
    assert (SetDirty(serial) + 1) % Bit24 == low;
    PackRoundTrip(len, low);
    LowBitKept(len, low);
    PackRoundTrip(h, s);
  }

  /** A serial written by add: the value length in the top 8 bits, a clean zero counter. */
  lemma AddedSerialFacts(len: nat)
    requires len < 256
    ensures len * Bit24 < Bit32 && !SerialDirty(len * Bit24) && SerialValueLen(len * Bit24) == len
  {
    PackRoundTrip(len, 0);
  }

  /** A property as a reader sees it: its name and its value, without the terminators. */
  datatype Prop = Prop(name: string, value: string)

  /** The place of the first property with the given name, if any. */
  function LookupIn(props: seq<Prop>, name: string): (r: Option<nat>)
    ensures r.Some? ==> r.value < |props| && props[r.value].name == name
  {
    if props == [] then None
    else
      var prev := LookupIn(props[..|props| - 1], name);
      if prev.Some? then prev
      else if props[|props| - 1].name == name then Some(|props| - 1)
      else None
  }

  /** Lookup finds the first property with the name, and nothing iff there is none. */
  lemma {:induction false} LookupInSpec(props: seq<Prop>, name: string)
    ensures LookupIn(props, name).Some? ==>
              && LookupIn(props, name).value < |props|
              && props[LookupIn(props, name).value].name == name
              && forall j :: 0 <= j < LookupIn(props, name).value ==> props[j].name != name
    ensures LookupIn(props, name).None? <==> forall j :: 0 <= j < |props| ==> props[j].name != name
  {
    if props != [] {
      var init := props[..|props| - 1];
      LookupInSpec(init, name);
      assert forall j :: 0 <= j < |init| ==> init[j] == props[j];
    }
  }

  /** Appending a property keeps every name that was found, and makes the new name findable. */
  lemma LookupAppend(props: seq<Prop>, p: Prop, name: string)
    ensures LookupIn(props, name).Some? ==> LookupIn(props + [p], name) == LookupIn(props, name)
    ensures LookupIn(props, name).None? ==>
              LookupIn(props + [p], name) == if p.name == name then Some(|props|) else None
  {
    assert (props + [p])[..|props|] == props;
  }

  /** One more step of a scan that has not found the name yet. */
  lemma LookupStep(props: seq<Prop>, i: nat, name: string)
    requires i < |props| && LookupIn(props[..i], name) == None
    ensures LookupIn(props[..i + 1], name) == if props[i].name == name then Some(i) else None
  {
    assert props[..i + 1] == props[..i] + [props[i]];
    LookupAppend(props[..i], props[i], name);
  }

  /** Lookup depends only on the names, so rewriting values keeps every lookup. */
  lemma {:induction false} LookupIgnoresValues(a: seq<Prop>, b: seq<Prop>, name: string)
    requires |a| == |b|
    requires forall i :: 0 <= i < |a| ==> a[i].name == b[i].name
    ensures LookupIn(a, name) == LookupIn(b, name)
  {
    if a != [] {
      LookupIgnoresValues(a[..|a| - 1], b[..|b| - 1], name);
    }
  }

  /** The property area, with its slots. */
  class PropArea {
    const limits: Limits
    /** Number of slots in use. */
    var count: nat
    /** Area serial, bumped by every add and update. */
    var serial: nat
    /** Table of contents, one packed entry per slot in use. */
    const toc: array<nat>
    /** Each slot's name bytes as copied by add: the name and the byte after it. */
    const names: array<string>
    /** Each slot's serial. */
    const serials: array<nat>
    /** Each slot's value bytes as copied by add or update: the value and the byte after it. */
    const values: array<string>

    ghost predicate Valid()
      reads this, toc, names, serials, values
    {
      && limits.Sane()
      && toc.Length == limits.countMax && names.Length == limits.countMax
      && serials.Length == limits.countMax && values.Length == limits.countMax
      && toc != serials && names != values
      && count <= limits.countMax && serial < Bit32
      && (forall i :: 0 <= i < count ==> SlotValid(i))
    }

    /** A slot in use: its entry, serial and bytes agree on the lengths, and the serial is clean. */
    ghost predicate SlotValid(i: nat)
      reads this, toc, names, serials, values
      requires i < toc.Length && i < names.Length && i < serials.Length && i < values.Length
    {
      && 1 <= |names[i]| - 1 < limits.nameMax
      && toc[i] == TocEntry(|names[i]| - 1, i)
      && TocNameLen(toc[i]) == |names[i]| - 1 && TocSlot(toc[i]) == i
      && |values[i]| - 1 < limits.valueMax
      && serials[i] < Bit32 && !SerialDirty(serials[i]) && SerialValueLen(serials[i]) == |values[i]| - 1
    }

    /** The properties, in the order they were added. */
    ghost function Props(): seq<Prop>
      reads this, toc, names, serials, values
      requires Valid()
    {
      seq(count, i requires 0 <= i < count && Valid() reads this, toc, names, serials, values =>
        assert SlotValid(i); Prop(names[i][..|names[i]| - 1], values[i][..|values[i]| - 1]))
    }

    /** __system_property_area_init: an empty, zeroed area. */
    constructor(limits: Limits)
      requires limits.Sane()
      ensures Valid()
      ensures this.limits == limits && count == 0 && serial == 0 && Props() == []
      ensures fresh(toc) && fresh(names) && fresh(serials) && fresh(values)
    {
      this.limits := limits;
      count := 0;
      serial := 0;
      toc := new nat[limits.countMax](_ => 0);
      names := new string[limits.countMax](_ => "");
      serials := new nat[limits.countMax](_ => 0);
      values := new string[limits.countMax](_ => "");
    }

    /**
     * __system_property_find_nth: the n-th slot in order of addition, or
     * nothing when n is not below the count.
     */
    function FindNth(n: nat): (r: Option<nat>)
      reads this, toc, names, serials, values
      requires Valid()
      ensures r.None? <==> n >= count
      ensures r.Some? ==> r.value == n && r.value < count
    {
      if n >= count then None else assert SlotValid(n); Some(TocSlot(toc[n]))
    }

    /**
     * __system_property_find: nothing for an empty name or one of at least
     * PROP_NAME_MAX characters; otherwise the first slot whose name is the
     * given one, found by scanning the table of contents.
     */
    method Find(name: string) returns (r: Option<nat>)
      requires Valid()
      ensures r == if |name| == 0 || |name| >= limits.nameMax then None else LookupIn(Props(), name)
    {
      var len := |name|;
      if len >= limits.nameMax {
        return None;
      }
      if len < 1 {
        return None;
      }
      ghost var props := Props();
      var i := 0;
      while i < count
        invariant i <= count
        invariant LookupIn(props[..i], name) == None
      {
        var entry := toc[i];
        EntryMatches(i, name);
        LookupStep(props, i, name);
        if TocNameLen(entry) == len {
          var slot := TocSlot(entry);
          if names[slot][..len] == name {
            LookupPrefix(props, i + 1, name);
            return Some(slot);
          }
        }
        i := i + 1;
      }
      assert props[..count] == props;
      return None;
    }

    /** The table-of-contents test find makes on slot i holds iff slot i's name is the one sought. */
    lemma EntryMatches(i: nat, name: string)
      requires Valid() && i < count
      ensures TocSlot(toc[i]) == i && i < names.Length && |names[i]| == TocNameLen(toc[i]) + 1
      ensures Props()[i].name == names[i][..TocNameLen(toc[i])]
      ensures TocNameLen(toc[i]) == |name| && names[i][..|name|] == name <==> Props()[i].name == name
    {
      assert SlotValid(i);
    }

    /** Single-threaded __system_property_read: the value length and the value bytes of a slot. */
    function Read(slot: nat): (r: (nat, string))
      reads this, toc, names, serials, values
      requires Valid() && slot < count
      ensures r.0 == |Props()[slot].value|
      ensures r.1 == values[slot] && |r.1| == r.0 + 1 && r.1[..r.0] == Props()[slot].value
    {
      assert SlotValid(slot);
      var len := SerialValueLen(serials[slot]);
      (len, values[slot][..len + 1])
    }

    /** __system_property_serial: a slot's serial is clean and carries its value's length. */
    function SlotSerial(slot: nat): (r: nat)
      reads this, toc, names, serials, values
      requires Valid() && slot < count
      ensures r < Bit32 && !SerialDirty(r) && SerialValueLen(r) == |Props()[slot].value|
    {
      assert SlotValid(slot);
      serials[slot]
    }

    /**
     * __system_property_get: the value length and the value bytes of the
     * named property, or 0 and a lone terminator when there is none.
     */
    method Get(name: string) returns (len: nat, value: string)
      requires Valid()
      ensures var found := if |name| == 0 || |name| >= limits.nameMax then None else LookupIn(Props(), name);
              && (found.None? ==> len == 0 && value == ['\0'])
              && (found.Some? ==> found.value < count && len == |Props()[found.value].value|
                                  && |value| == len + 1 && value[..len] == Props()[found.value].value)
    {
      var pi := Find(name);
      if pi.Some? {
        LookupInSpec(Props(), name);
        len, value := Read(pi.value).0, Read(pi.value).1;
      } else {
        len, value := 0, ['\0'];
      }
    }

    /**
     * __system_property_update: -1 for a length of PROP_VALUE_MAX or more,
     * before the slot is touched; otherwise the slot gets the new value and
     * a fresh serial, and the area serial is bumped.
     */
    method Update(pi: Option<nat>, value: string, len: nat) returns (r: int)
      requires Valid()
      requires len < limits.valueMax ==> pi.Some? && pi.value < count && len < |value|
      modifies this, serials, values
      ensures Valid()
      ensures r == -1 <==> len >= limits.valueMax
      ensures r == -1 || r == 0
      ensures r == -1 ==> unchanged(this, serials, values)
      ensures r == 0 ==> && count == old(count) && serial == (old(serial) + 1) % Bit32
                         && values[pi.value] == value[..len + 1]
                         && serials[pi.value] == UpdatedSerial(old(serials[pi.value]), len)
                         && serials[pi.value] != old(serials[pi.value])
                         && (forall i :: 0 <= i < values.Length && i != pi.value ==>
                               values[i] == old(values[i]) && serials[i] == old(serials[i]))
      ensures r == 0 ==> |Props()| == |old(Props())|
                         && Props()[pi.value] == Prop(old(Props())[pi.value].name, value[..len])
                         && (forall i :: 0 <= i < |Props()| && i != pi.value ==> Props()[i] == old(Props())[i])
    {
      if len >= limits.valueMax {
        return -1;
      }
      var slot := pi.value;
      ghost var before := Props();
      assert SlotValid(slot);
      RewriteSlot(slot, value[..len + 1], len);
      UpdatedSerialFacts(old(serials[slot]), len);
      serial := (serial + 1) % Bit32;
      assert forall i :: 0 <= i < count && i != slot ==> SlotValid(i) by {
        forall i | 0 <= i < count && i != slot
          ensures SlotValid(i)
        {
          assert old(SlotValid(i));
        }
      }
      assert SlotValid(slot);
      assert Props()[slot] == Prop(before[slot].name, value[..len]);
      return 0;
    }

    /**
     * The slot rewrite of update: mark the serial dirty, copy the value
     * bytes, then store the new length with the counter moved on.
     */
    method RewriteSlot(slot: nat, valueBytes: string, len: nat)
      requires slot < serials.Length && slot < values.Length
      modifies serials, values
      ensures values[slot] == valueBytes && serials[slot] == UpdatedSerial(old(serials[slot]), len)
      ensures forall i :: 0 <= i < values.Length && i != slot ==> values[i] == old(values[i])
      ensures forall i :: 0 <= i < serials.Length && i != slot ==> serials[i] == old(serials[i])
    {
      serials[slot] := SetDirty(serials[slot]);
      values[slot] := valueBytes;
      serials[slot] := len * Bit24 + (serials[slot] + 1) % Bit24;
    }

    /** new_prop_info: the slot's serial, name bytes and value bytes, in place. */
    method NewSlot(slot: nat, slotSerial: nat, nameBytes: string, valueBytes: string)
      requires slot < names.Length && slot < serials.Length && slot < values.Length && names != values
      modifies names, serials, values
      ensures names[slot] == nameBytes && values[slot] == valueBytes && serials[slot] == slotSerial
      ensures forall i :: 0 <= i < names.Length && i != slot ==> names[i] == old(names[i])
      ensures forall i :: 0 <= i < values.Length && i != slot ==> values[i] == old(values[i])
      ensures forall i :: 0 <= i < serials.Length && i != slot ==> serials[i] == old(serials[i])
    {
      serials[slot] := slotSerial;
      names[slot] := nameBytes;
      values[slot] := valueBytes;
    }

    /**
     * __system_property_add: -1 when the area is full, the name is empty or
     * of PROP_NAME_MAX characters or more, or the value of PROP_VALUE_MAX
     * characters or more; otherwise the next slot is filled and listed.
     */
    method Add(name: string, nameLen: nat, value: string, valueLen: nat) returns (r: int)
      requires Valid()
      requires count < limits.countMax && 1 <= nameLen < limits.nameMax && valueLen < limits.valueMax
               ==> nameLen < |name| && valueLen < |value|
      modifies this, toc, names, serials, values
      ensures Valid()
      ensures r == -1 <==> old(count) == limits.countMax || nameLen >= limits.nameMax
                           || valueLen >= limits.valueMax || nameLen < 1
      ensures r == -1 || r == 0
      ensures r == -1 ==> unchanged(this, toc, names, serials, values)
      ensures r == 0 ==> && count == old(count) + 1 && serial == (old(serial) + 1) % Bit32
                         && toc[old(count)] == TocEntry(nameLen, old(count))
                         && names[old(count)] == name[..nameLen + 1]
                         && values[old(count)] == value[..valueLen + 1]
                         && serials[old(count)] == valueLen * Bit24
                         && (forall i :: 0 <= i < toc.Length && i != old(count) ==>
                               toc[i] == old(toc[i]) && names[i] == old(names[i])
                               && values[i] == old(values[i]) && serials[i] == old(serials[i]))
      ensures r == 0 ==> Props() == old(Props()) + [Prop(name[..nameLen], value[..valueLen])]
    {
      if count == limits.countMax {
        return -1;
      }
      if nameLen >= limits.nameMax {
        return -1;
      }
      if valueLen >= limits.valueMax {
        return -1;
      }
      if nameLen < 1 {
        return -1;
      }
      ghost var before := Props();
      var slot := count;
      NewSlot(slot, valueLen * Bit24, name[..nameLen + 1], value[..valueLen + 1]);
      toc[count] := TocEntry(nameLen, slot);
      TocRoundTrip(nameLen, slot);
      AddedSerialFacts(valueLen);
      count := count + 1;
      serial := (serial + 1) % Bit32;
      forall i | 0 <= i < count
        ensures SlotValid(i)
      {
        if i < slot {
          assert old(SlotValid(i));
        }
      }
      assert Props() == before + [Prop(name[..nameLen], value[..valueLen])] by {
        assert |Props()| == |before| + 1;
        forall i | 0 <= i < slot
          ensures Props()[i] == before[i]
        {
          assert names[i] == old(names[i]) && values[i] == old(values[i]);
        }
        assert Props()[slot] == Prop(name[..nameLen], value[..valueLen]);
      }
      return 0;
    }
  }

  /** A lookup that succeeds on a prefix gives the same place on the whole. */
  lemma {:induction false} LookupPrefix(props: seq<Prop>, k: nat, name: string)
    requires k <= |props|
    requires LookupIn(props[..k], name).Some?
    ensures LookupIn(props, name) == LookupIn(props[..k], name)
    decreases |props| - k
  {
    if k < |props| {
      LookupAppend(props[..k], props[k], name);
      assert props[..k + 1] == props[..k] + [props[k]];
      LookupPrefix(props, k + 1, name);
    } else {
      assert props[..k] == props;
    }
  }

  /** The request set sends to the property service. */
  datatype PropMsg = SetProp(name: string, value: string)

  /**
   * The argument checks of __system_property_set: no request for a missing
   * key, a key of PROP_NAME_MAX characters or more, or a value of
   * PROP_VALUE_MAX characters or more; a missing value is sent as "".
   */
  function SetRequest(limits: Limits, key: Option<string>, value: Option<string>): (r: Option<PropMsg>)
    ensures r.None? <==> key.None? || |key.value| >= limits.nameMax
                         || (value.Some? && |value.value| >= limits.valueMax)
                         || (value.None? && limits.valueMax == 0)
    ensures r.Some? ==> r.value.name == key.value && r.value.value == (if value.None? then "" else value.value)
  {
    if key.None? then None
    else
      var v := if value.None? then "" else value.value;
      if |key.value| >= limits.nameMax then None
      else if |v| >= limits.valueMax then None
      else Some(SetProp(key.value, v))
  }

  /** __system_property_set: -1 on a failed check, else the sender's error or 0. */
  function Set(limits: Limits, key: Option<string>, value: Option<string>, send: PropMsg -> int): (r: int)
    ensures SetRequest(limits, key, value).None? ==> r == -1
    ensures SetRequest(limits, key, value).Some? ==>
              r == if send(SetRequest(limits, key, value).value) < 0 then send(SetRequest(limits, key, value).value) else 0
  {
    match SetRequest(limits, key, value)
    case None => -1
    case Some(msg) =>
      var err := send(msg);
      if err < 0 then err else 0
  }
}
