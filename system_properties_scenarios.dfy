/**
 * The scenarios of bionic's property tests, run against the model of the
 * property area with limits of the sizes those tests use (names below 32
 * characters, values below 92, 247 slots).
 */
module SystemPropertiesScenarios {
  import opened Wrappers
  import opened SystemProperties
  import StubText

  const TestLimits: Limits := Limits(32, 92, 247)

  /** The three properties the scenarios add. */
  function Three(first: string, second: string, third: string): seq<Prop> {
    [Prop("property", first), Prop("other_property", second), Prop("property_other", third)]
  }

  /** Each of the three names is found at its own place, and a fourth name is not found. */
  lemma LookupThree(first: string, second: string, third: string)
    ensures LookupIn(Three(first, second, third), "property") == Some(0)
    ensures LookupIn(Three(first, second, third), "other_property") == Some(1)
    ensures LookupIn(Three(first, second, third), "property_other") == Some(2)
    ensures LookupIn(Three(first, second, third), "property1") == None
  {
    var t := Three(first, second, third);
    assert t[0].name == "property" && t[1].name == "other_property" && t[2].name == "property_other";
    assert "other_property" != "property_other" by { assert "other_property"[0] != "property_other"[0]; }
    LookupInSpec(t, "property");
    LookupInSpec(t, "other_property");
    LookupInSpec(t, "property_other");
    LookupInSpec(t, "property1");
  }

  /** A fresh area after adding "property" (with the given value), "other_property" and "property_other". */
  method AddThree(first: string, firstLen: nat) returns (pa: PropArea)
    requires firstLen < |first| && firstLen < TestLimits.valueMax
    ensures fresh(pa) && fresh(pa.toc) && fresh(pa.names) && fresh(pa.serials) && fresh(pa.values)
    ensures pa.Valid() && pa.limits == TestLimits && pa.count == 3
    ensures pa.Props() == Three(first[..firstLen], "value2", "value3")
  {
    pa := new PropArea(TestLimits);
    var r := pa.Add("property\0", 8, first, firstLen);
    assert "property\0"[..8] == "property";
    r := pa.Add("other_property\0", 14, "value2\0", 6);
    assert "other_property\0"[..14] == "other_property" && "value2\0"[..6] == "value2";
    r := pa.Add("property_other\0", 14, "value3\0", 6);
    assert "property_other\0"[..14] == "property_other" && "value3\0"[..6] == "value3";
  }

  /** Reading back the three names of an area holding the three properties. */
  method GetThree(pa: PropArea, first: string, second: string, third: string)
      returns (len1: nat, v1: string, len2: nat, v2: string, len3: nat, v3: string)
    requires pa.Valid() && pa.limits == TestLimits && pa.Props() == Three(first, second, third)
    ensures len1 == |first| && |v1| == len1 + 1 && v1[..len1] == first
    ensures len2 == |second| && |v2| == len2 + 1 && v2[..len2] == second
    ensures len3 == |third| && |v3| == len3 + 1 && v3[..len3] == third
  {
    LookupThree(first, second, third);
    len1, v1 := pa.Get("property");
    len2, v2 := pa.Get("other_property");
    len3, v3 := pa.Get("property_other");
  }

  /** Three adds, then each name reads back its own value. */
  method AddThenGet() returns (len1: nat, v1: string, len2: nat, v2: string, len3: nat, v3: string)
    ensures len1 == 6 && |v1| == 7 && v1[..6] == "value1"
    ensures len2 == 6 && |v2| == 7 && v2[..6] == "value2"
    ensures len3 == 6 && |v3| == 7 && v3[..6] == "value3"
  {
    var pa := AddThree("value1\0", 6);
    assert "value1\0"[..6] == "value1";
    len1, v1, len2, v2, len3, v3 := GetThree(pa, "value1", "value2", "value3");
  }

  /**
   * Any accepted add followed by a get of the same name: a name not yet in
   * the area reads back the value just added; a name already there keeps
   * reading back its earlier value, since add does not look for duplicates.
   */
  method AddThenGetAny(pa: PropArea, name: string, value: string, valueLen: nat)
      returns (r: int, len: nat, got: string)
    requires pa.Valid() && pa.count < pa.limits.countMax
    requires 1 <= |name| < pa.limits.nameMax && valueLen < pa.limits.valueMax && valueLen < |value|
    modifies pa, pa.toc, pa.names, pa.serials, pa.values
    ensures pa.Valid() && r == 0 && |got| == len + 1
    ensures LookupIn(old(pa.Props()), name).None? ==> len == valueLen && got[..len] == value[..valueLen]
    ensures LookupIn(old(pa.Props()), name).Some? ==>
      var earlier := old(pa.Props())[LookupIn(old(pa.Props()), name).value].value;
      len == |earlier| && got[..len] == earlier
  {
    ghost var before := pa.Props();
    assert (name + "\0")[..|name|] == name;
    r := pa.Add(name + "\0", |name|, value, valueLen);
    LookupAppend(before, Prop(name, value[..valueLen]), name);
    len, got := pa.Get(name);
  }

  /** The tests' update pattern: find the name, then update the slot found. */
  method FindAndUpdate(pa: PropArea, name: string, value: string, len: nat)
    requires pa.Valid() && 0 < |name| < pa.limits.nameMax && LookupIn(pa.Props(), name).Some?
    requires len < pa.limits.valueMax && len < |value|
    modifies pa, pa.serials, pa.values
    ensures pa.Valid() && pa.count == old(pa.count)
    ensures pa.Props() == old(pa.Props())[LookupIn(old(pa.Props()), name).value := Prop(name, value[..len])]
  {
    LookupInSpec(pa.Props(), name);
    var pi := pa.Find(name);
    var r := pa.Update(pi, value, len);
  }

  /** Updating, through find, the value of the place given of the three properties. */
  method UpdateNth(pa: PropArea, k: nat, first: string, second: string, third: string, value: string, len: nat)
    requires pa.Valid() && pa.limits == TestLimits && pa.Props() == Three(first, second, third)
    requires k < 3 && len < TestLimits.valueMax && len < |value|
    modifies pa, pa.serials, pa.values
    ensures pa.Valid() && pa.limits == TestLimits
    ensures pa.Props() == Three(if k == 0 then value[..len] else first,
                                if k == 1 then value[..len] else second,
                                if k == 2 then value[..len] else third)
  {
    LookupThree(first, second, third);
    var name := Three(first, second, third)[k].name;
    FindAndUpdate(pa, name, value, len);
  }

  /** Three adds, three updates through find, then each name reads back its new value. */
  method UpdateThenGet() returns (len1: nat, v1: string, len2: nat, v2: string, len3: nat, v3: string)
    ensures len1 == 6 && |v1| == 7 && v1[..6] == "value4"
    ensures len2 == 9 && |v2| == 10 && v2[..9] == "newvalue5"
    ensures len3 == 6 && |v3| == 7 && v3[..6] == "value6"
  {
    var pa := AddThree("oldvalue1\0", 9);
    assert "value4\0"[..6] == "value4" && "newvalue5\0"[..9] == "newvalue5" && "value6\0"[..6] == "value6";
    UpdateNth(pa, 0, "oldvalue1\0"[..9], "value2", "value3", "value4\0", 6);
    UpdateNth(pa, 1, "value4", "value2", "value3", "newvalue5\0", 9);
    UpdateNth(pa, 2, "value4", "newvalue5", "value3", "value6\0", 6);
    len1, v1, len2, v2, len3, v3 := GetThree(pa, "value4", "newvalue5", "value6");
  }

  /** Any update through find of a name in the area, then a get of that name, reads back the new value. */
  method UpdateThenGetAny(pa: PropArea, name: string, value: string, len: nat) returns (gotLen: nat, got: string)
    requires pa.Valid() && 0 < |name| < pa.limits.nameMax && LookupIn(pa.Props(), name).Some?
    requires len < pa.limits.valueMax && len < |value|
    modifies pa, pa.serials, pa.values
    ensures pa.Valid() && gotLen == len && |got| == len + 1 && got[..len] == value[..len]
  {
    ghost var before := pa.Props();
    FindAndUpdate(pa, name, value, len);
    LookupIgnoresValues(before, pa.Props(), name);
    gotLen, got := pa.Get(name);
  }

  /** After three adds, find_nth finds slots 0 to 2 and nothing from 3 on. */
  method FindNthAfterThreeAdds() returns (found: seq<bool>)
    ensures found == [true, true, true, false, false, false, false, false, false]
  {
    var pa := AddThree("value1\0", 6);
    found := [];
    var probes := [0, 1, 2, 3, 4, 5, 100, 200, 247];
    for i := 0 to |probes|
      invariant found == seq(i, k requires 0 <= k < i => probes[k] < 3)
    {
      found := found + [pa.FindNth(probes[i]).Some?];
    }
  }

  /** An unknown name is not found, and get gives an empty value for it. */
  method MissingName() returns (missing: Option<nat>, getLen: nat, getValue: string)
    ensures missing == None && getLen == 0 && getValue == "\0"
  {
    var pa := AddThree("value1\0", 6);
    LookupThree("value1\0"[..6], "value2", "value3");
    missing := pa.Find("property1");
    getLen, getValue := pa.Get("property1");
  }

  /** A name or value at its maximum length is refused by add, a value at its maximum by update. */
  method OversizeRefused() returns (addLongName: int, addLongValue: int, updateLong: int)
    ensures addLongName == -1 && addLongValue == -1 && updateLong == -1
  {
    var pa := AddThree("value1\0", 6);
    addLongName := pa.Add("name\0", 32, "value\0", 5);
    addLongValue := pa.Add("name\0", 4, "value\0", 92);
    updateLong := pa.Update(None, "value\0", 92);
  }

  /** An update changes the slot's serial. */
  method SerialChanges() returns (before: nat, after: nat)
    ensures before != after
  {
    var pa := AddThree("value1\0", 6);
    LookupThree("value1\0"[..6], "value2", "value3");
    var pi := pa.Find("property");
    before := pa.SlotSerial(pi.value);
    var r := pa.Update(pi, "value2\0", 6);
    after := pa.SlotSerial(pi.value);
  }

  /**
   * A buffer of `width` characters holding the printed `prefix` and then
   * the `pad` character, as the fill test builds with snprintf and memset
   * (cut at `width` when the prefix does not fit).
   */
  function Padded(prefix: string, width: nat, pad: char): (r: string)
    ensures |r| == width
    ensures |prefix| <= width ==> r[..|prefix|] == prefix && forall k :: |prefix| <= k < width ==> r[k] == pad
  {
    if |prefix| <= width then prefix + seq(width - |prefix|, _ => pad) else prefix[..width]
  }

  /** The fill test's k-th name: "property_<k>" padded with 'a' to PROP_NAME_MAX - 1 characters. */
  function FillName(limits: Limits, k: nat): string
    requires limits.Sane()
  {
    Padded("property_" + StubText.Decimal(k), limits.nameMax - 1, 'a')
  }

  /** The fill test's k-th value: "value_<k>" padded with 'b' to PROP_VALUE_MAX - 1 characters. */
  function FillValue(limits: Limits, k: nat): string
    requires limits.Sane()
  {
    Padded("value_" + StubText.Decimal(k), limits.valueMax - 1, 'b')
  }

  /** The k-th name and value are printed in full, with at least one pad character after them. */
  predicate FillFits(limits: Limits, k: nat) {
    9 + |StubText.Decimal(k)| < limits.nameMax - 1 && 6 + |StubText.Decimal(k)| < limits.valueMax - 1
  }

  /** The properties of an area after the first n fill adds. */
  function FillProps(limits: Limits, n: nat): seq<Prop>
    requires limits.Sane()
  {
    seq(n, k requires 0 <= k < n => Prop(FillName(limits, k), FillValue(limits, k)))
  }

  /**
   * Different numbers give different fill names: where the digit runs have
   * the same length they differ in a digit, otherwise the shorter run is
   * followed by an 'a' where the longer one still has a digit.
   */
  lemma FillNamesDistinct(limits: Limits, i: nat, j: nat)
    requires limits.Sane() && FillFits(limits, i) && FillFits(limits, j)
    ensures i != j ==> FillName(limits, i) != FillName(limits, j)
  {
    var di, dj := StubText.Decimal(i), StubText.Decimal(j);
    StubText.DecimalRoundTrip(i);
    StubText.DecimalRoundTrip(j);
    var ni, nj := FillName(limits, i), FillName(limits, j);
    var pi, pj := "property_" + di, "property_" + dj;
    assert ni[..|pi|] == pi && nj[..|pj|] == pj;
    if i != j {
      if |di| == |dj| {
        assert di != dj;
        var k :| 0 <= k < |di| && di[k] != dj[k];
        assert ni[9 + k] == pi[9 + k] == di[k];
        assert nj[9 + k] == pj[9 + k] == dj[k];
      } else if |di| < |dj| {
        assert ni[|pi|] == 'a';
        assert nj[|pi|] == pj[|pi|] == dj[|di|];
        assert StubText.IsDigit(dj[|di|]);
      } else {
        assert nj[|pj|] == 'a';
        assert ni[|pj|] == pi[|pj|] == di[|dj|];
        assert StubText.IsDigit(di[|dj|]);
      }
    }
  }

  /** After n fill adds whose names fit, the k-th fill name is found at slot k. */
  lemma FillLookup(limits: Limits, n: nat, k: nat)
    requires limits.Sane() && FillFits(limits, n) && k < n
    ensures LookupIn(FillProps(limits, n), FillName(limits, k)) == Some(k)
  {
    var props := FillProps(limits, n);
    var name := FillName(limits, k);
    LookupInSpec(props, name);
    assert props[k].name == name;
    var r := LookupIn(props, name).value;
    StubText.DecimalLengthMono(r, n);
    StubText.DecimalLengthMono(k, n);
    FillNamesDistinct(limits, r, k);
  }

  /**
   * The fill test's first loop: add "property_<k>" = "value_<k>", padded to
   * the greatest accepted lengths, for k = 0, 1, ... until add fails.
   * Exactly PA_COUNT_MAX adds succeed, and the area then holds them in order.
   */
  method FillAdds(limits: Limits) returns (pa: PropArea, added: nat)
    requires limits.Sane() && FillFits(limits, limits.countMax)
    ensures fresh(pa) && fresh(pa.toc) && fresh(pa.names) && fresh(pa.serials) && fresh(pa.values)
    ensures pa.Valid() && pa.limits == limits
    ensures added == limits.countMax && pa.Props() == FillProps(limits, added)
  {
    pa := new PropArea(limits);
    added := 0;
    while true
      invariant pa.Valid() && pa.limits == limits && pa.count == added <= limits.countMax
      invariant pa.Props() == FillProps(limits, added)
      invariant fresh(pa) && fresh(pa.toc) && fresh(pa.names) && fresh(pa.serials) && fresh(pa.values)
      decreases limits.countMax - added
    {
      StubText.DecimalLengthMono(added, limits.countMax);
      var name := FillName(limits, added) + "\0";
      var value := FillValue(limits, added) + "\0";
      assert name[..limits.nameMax - 1] == FillName(limits, added);
      assert value[..limits.valueMax - 1] == FillValue(limits, added);
      var r := pa.Add(name, limits.nameMax - 1, value, limits.valueMax - 1);
      if r < 0 {
        break;
      }
      assert FillProps(limits, added + 1) == FillProps(limits, added) + [Prop(FillName(limits, added), FillValue(limits, added))];
      added := added + 1;
    }
  }

  /** Get of the k-th fill name after n fill adds: PROP_VALUE_MAX - 1 and the k-th fill value. */
  method GetFill(pa: PropArea, limits: Limits, n: nat, k: nat) returns (len: nat, got: string)
    requires limits.Sane() && FillFits(limits, n) && k < n
    requires pa.Valid() && pa.limits == limits && pa.Props() == FillProps(limits, n)
    ensures len == limits.valueMax - 1 && |got| == limits.valueMax && got[..len] == FillValue(limits, k)
  {
    FillLookup(limits, n, k);
    len, got := pa.Get(FillName(limits, k));
  }

  /**
   * The fill test's second loop: get each of the n fill names; each reads
   * back PROP_VALUE_MAX - 1 characters, the value added under it.
   */
  method ReadBack(pa: PropArea, limits: Limits, n: nat) returns (lens: seq<nat>, values: seq<string>)
    requires limits.Sane() && FillFits(limits, n)
    requires pa.Valid() && pa.limits == limits && pa.Props() == FillProps(limits, n)
    ensures |lens| == n && |values| == n
    ensures forall k :: 0 <= k < n ==>
      lens[k] == limits.valueMax - 1 && |values[k]| == limits.valueMax && values[k][..lens[k]] == FillValue(limits, k)
  {
    lens, values := [], [];
    for i := 0 to n
      invariant |lens| == i && |values| == i
      invariant forall k :: 0 <= k < i ==>
        lens[k] == limits.valueMax - 1 && |values[k]| == limits.valueMax && values[k][..lens[k]] == FillValue(limits, k)
    {
      var len, got := GetFill(pa, limits, n, i);
      lens, values := lens + [len], values + [got];
    }
  }

  /** The fill test: exactly PA_COUNT_MAX adds succeed, and every name added reads back its own value. */
  method Fill(limits: Limits) returns (added: nat, lens: seq<nat>, values: seq<string>)
    requires limits.Sane() && FillFits(limits, limits.countMax)
    ensures added == limits.countMax && |lens| == added && |values| == added
    ensures forall k :: 0 <= k < added ==>
      lens[k] == limits.valueMax - 1 && |values[k]| == limits.valueMax && values[k][..lens[k]] == FillValue(limits, k)
  {
    var pa;
    pa, added := FillAdds(limits);
    lens, values := ReadBack(pa, limits, added);
  }
}
