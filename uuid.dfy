/** The UUID helpers of the relay: expansion of a 16-bit short form into the
    Bluetooth Base UUID (Bluetooth Core Specification, Vol 3, Part B,
    section 2.5.1), dash removal, and the test for the dashed Base-UUID form.
    The regular expressions of `ble_relay.js` are restated as character predicates. */
module Uuid {

  /** ASCII lower-casing of one character; every other character is unchanged. */
  function Lower(c: char): char
  {
    if 'A' <= c <= 'Z' then (c as int + 32) as char else c
  }

  /** `toLowerCase` on the ASCII strings the relay handles. */
  function LowerStr(s: string): (r: string)
    ensures |r| == |s|
    ensures IsLowerCase(r)
  {
    seq(|s|, i requires 0 <= i < |s| => Lower(s[i]))
  }

  predicate IsLowerCase(s: string)
  {
    forall i :: 0 <= i < |s| ==> !('A' <= s[i] <= 'Z')
  }

  /** `[0-9a-fA-F]`, which is also what `[0-9a-f]` matches under the `i` flag. */
  predicate IsHexDigit(c: char)
  {
    '0' <= c <= '9' || 'a' <= c <= 'f' || 'A' <= c <= 'F'
  }

  /** The Base UUID after its first eight hex digits, without dashes. */
  const BaseSuffix: string := "00001000800000805f9b34fb"

  /** The same tail as it appears in the dashed 36-character form. */
  const DashedBaseSuffix: string := "-0000-1000-8000-00805f9b34fb"

  /** The dashed form of the Base UUID for the short form `x`. */
  function Dashed(x: string): string
  {
    "0000" + x + DashedBaseSuffix
  }

  lemma LowerStrConcat(a: string, b: string)
    ensures LowerStr(a + b) == LowerStr(a) + LowerStr(b)
  {
  }

  lemma LowerStrOfLowerCase(s: string)
    requires IsLowerCase(s)
    ensures LowerStr(s) == s
  {
  }

  lemma BaseSuffixIsLowerCase()
    ensures IsLowerCase(BaseSuffix)
  {
    assert BaseSuffix == ['0', '0', '0', '0', '1', '0', '0', '0', '8', '0', '0', '0', '0', '0', '8', '0', '5', 'f', '9', 'b', '3', '4', 'f', 'b'];
  }

  lemma DashedBaseSuffixIsLowerCase()
    ensures IsLowerCase(DashedBaseSuffix)
  {
    assert DashedBaseSuffix == ['-', '0', '0', '0', '0', '-', '1', '0', '0', '0', '-', '8', '0', '0', '0', '-', '0', '0', '8', '0', '5', 'f', '9', 'b', '3', '4', 'f', 'b'];
  }

  lemma SuffixesAreLowerCase()
    ensures IsLowerCase(BaseSuffix) && IsLowerCase(DashedBaseSuffix) && IsLowerCase("0000")
  {
    BaseSuffixIsLowerCase();
    DashedBaseSuffixIsLowerCase();
  }

  /** `BaseUUID(X)`: `0000X00001000800000805f9b34fb`, lower-cased as a whole.
      `ble_relay.js` only logs (console.assert) when `X` is not four characters
      long and returns the string anyway, so the function is total. */
  function BaseUuid(x: string): (r: string)
    ensures |r| == |x| + 28
    ensures r[..4] == "0000" && r[4..4 + |x|] == LowerStr(x) && r[4 + |x|..] == BaseSuffix
    ensures IsLowerCase(r)
  {
    SuffixesAreLowerCase();
    LowerStrConcat("0000" + x, BaseSuffix);
    LowerStrConcat("0000", x);
    LowerStrOfLowerCase("0000");
    LowerStrOfLowerCase(BaseSuffix);
    LowerStr("0000" + x + BaseSuffix)
  }

  /** Two short forms expand to the same Base UUID exactly when they are equal
      ignoring case. */
  lemma BaseUuidCaseInsensitive(x: string, y: string)
    ensures BaseUuid(x) == BaseUuid(y) <==> LowerStr(x) == LowerStr(y)
  {
    var rx, ry := BaseUuid(x), BaseUuid(y);
    if LowerStr(x) == LowerStr(y) {
      assert rx == ry by {
        assert |x| == |y|;
        assert rx == rx[..4] + rx[4..4 + |x|] + rx[4 + |x|..];
        assert ry == ry[..4] + ry[4..4 + |y|] + ry[4 + |y|..];
      }
    }
    if rx == ry {
      assert LowerStr(x) == LowerStr(y) by {
        assert |x| == |y|;
        assert rx[4..4 + |x|] == ry[4..4 + |y|];
      }
    }
  }

  /** `removeDashes`: `uuidDash.replace(/-/g, '')`. */
  function RemoveDashes(s: string): (r: string)
    ensures '-' !in r
    ensures |r| <= |s|
  {
    if s == [] then []
    else if s[0] == '-' then RemoveDashes(s[1..])
    else [s[0]] + RemoveDashes(s[1..])
  }

  /** A string without dashes is left as it is. */
  lemma {:induction false} RemoveDashesOfDashFree(s: string)
    requires '-' !in s
    ensures RemoveDashes(s) == s
  {
    if s != [] {
      assert s == [s[0]] + s[1..];
      RemoveDashesOfDashFree(s[1..]);
    }
  }

  lemma RemoveDashesIdempotent(s: string)
    ensures RemoveDashes(RemoveDashes(s)) == RemoveDashes(s)
  {
    RemoveDashesOfDashFree(RemoveDashes(s));
  }

  /** Removal works piecewise, so the characters kept stay in their order. */
  lemma {:induction false} RemoveDashesConcat(a: string, b: string)
    ensures RemoveDashes(a + b) == RemoveDashes(a) + RemoveDashes(b)
  {
    if a == [] {
      assert a + b == b;
    } else {
      assert (a + b)[0] == a[0];
      assert (a + b)[1..] == a[1..] + b;
      RemoveDashesConcat(a[1..], b);
    }
  }

  /** Every character other than '-' is kept as often as it occurs. */
  lemma {:induction false} RemoveDashesKeepsOthers(s: string, c: char)
    requires c != '-'
    ensures multiset(RemoveDashes(s))[c] == multiset(s)[c]
  {
    if s != [] {
      assert s == [s[0]] + s[1..];
      RemoveDashesKeepsOthers(s[1..], c);
    }
  }

  /** Lower-casing and dash removal commute. */
  lemma {:induction false} LowerRemoveDashesCommute(s: string)
    ensures LowerStr(RemoveDashes(s)) == RemoveDashes(LowerStr(s))
  {
    if s != [] {
      LowerRemoveDashesCommute(s[1..]);
      assert LowerStr(s) == [Lower(s[0])] + LowerStr(s[1..]);
      assert LowerStr(s)[0] == Lower(s[0]);
      assert LowerStr(s)[1..] == LowerStr(s[1..]);
      if s[0] != '-' {
        LowerStrConcat([s[0]], RemoveDashes(s[1..]));
      }
    }
  }

  lemma RemoveDashesOfGroup(a: string, t: string)
    requires '-' !in a
    ensures RemoveDashes(['-'] + a + t) == a + RemoveDashes(t)
  {
    assert (['-'] + a + t)[1..] == a + t;
    RemoveDashesConcat(a, t);
    RemoveDashesOfDashFree(a);
  }

  lemma RemoveDashesOfGroups(a: string, b: string, c: string, d: string)
    requires '-' !in a && '-' !in b && '-' !in c && '-' !in d
    ensures RemoveDashes(['-'] + a + (['-'] + b + (['-'] + c + (['-'] + d)))) == a + (b + (c + d))
  {
    RemoveDashesOfGroup(d, []);
    assert ['-'] + d == ['-'] + d + [];
    RemoveDashesOfGroup(c, ['-'] + d);
    RemoveDashesOfGroup(b, ['-'] + c + (['-'] + d));
    RemoveDashesOfGroup(a, ['-'] + b + (['-'] + c + (['-'] + d)));
  }

  lemma DashedSuffixGroups()
    ensures DashedBaseSuffix == ['-'] + "0000" + (['-'] + "1000" + (['-'] + "8000" + (['-'] + "00805f9b34fb")))
    ensures BaseSuffix == "0000" + ("1000" + ("8000" + "00805f9b34fb"))
  {
  }

  /** Dash removal turns the dashed tail into the undashed one. The tail is
      passed as a parameter, so that callers name it and its literal is not
      unfolded at each call site. */
  lemma RemoveDashesOfDashedSuffix(s: string)
    requires s == DashedBaseSuffix
    ensures RemoveDashes(s) == BaseSuffix
  {
    DashedSuffixGroups();
    RemoveDashesOfGroups("0000", "1000", "8000", "00805f9b34fb");
  }

  /** Where the dashed tail has its dashes, whatever the case of the rest. */
  lemma DashesOfDashedTail(s: string)
    ensures |s| == 36 && LowerStr(s[8..]) == DashedBaseSuffix ==>
      s[8] == '-' && s[13] == '-' && s[18] == '-' && s[23] == '-'
  {
    if |s| == 36 && LowerStr(s[8..]) == DashedBaseSuffix {
      var t := s[8..];
      assert DashedBaseSuffix[0] == '-' && DashedBaseSuffix[5] == '-' && DashedBaseSuffix[10] == '-' && DashedBaseSuffix[15] == '-';
      assert Lower(t[0]) == '-' && Lower(t[5]) == '-' && Lower(t[10]) == '-' && Lower(t[15]) == '-';
    }
  }

  /** `isBaseUUIDDash`: `/^0000[0-9a-f]{4}-0000-1000-8000-00805f9b34fb$/i`.
      The leading "0000" has no letters, so case does not matter for it. */
  predicate IsBaseUuidDash(s: string)
    ensures IsBaseUuidDash(s) ==> |s| == 36 && s[8] == '-' && s[13] == '-' && s[18] == '-' && s[23] == '-'
  {
    DashesOfDashedTail(s);
    && |s| == 36
    && s[..4] == "0000"
    && (forall i :: 4 <= i < 8 ==> IsHexDigit(s[i]))
    && LowerStr(s[8..]) == DashedBaseSuffix
  }

  /** The dashed form of any four hex digits, in either case, passes the test. */
  lemma DashedIsBaseUuidDash(x: string)
    requires |x| == 4 && forall i :: 0 <= i < 4 ==> IsHexDigit(x[i])
    ensures IsBaseUuidDash(Dashed(x))
  {
    var s := Dashed(x);
    assert s[..4] == "0000";
    assert s[8..] == DashedBaseSuffix;
    assert forall i :: 4 <= i < 8 ==> s[i] == x[i - 4];
    SuffixesAreLowerCase();
    LowerStrOfLowerCase(DashedBaseSuffix);
  }

  /** Canonicalisation: an identifier in dashed Base-UUID form, with its dashes
      removed and lower-cased, is the expansion of its four hex digits. */
  lemma DashedCanonical(s: string)
    requires IsBaseUuidDash(s)
    ensures LowerStr(RemoveDashes(s)) == BaseUuid(s[4..8])
  {
    var x, head, tail := s[4..8], s[..8], s[8..];
    assert RemoveDashes(s) == head + RemoveDashes(tail) by {
      assert s == head + tail;
      assert forall i :: 0 <= i < 8 ==> head[i] != '-';
      RemoveDashesOfDashFree(head);
      RemoveDashesConcat(head, tail);
    }
    assert LowerStr(RemoveDashes(tail)) == BaseSuffix by {
      LowerRemoveDashesCommute(tail);
      RemoveDashesOfDashedSuffix(LowerStr(tail));
    }
    assert LowerStr(head) == "0000" + LowerStr(x) by {
      assert head == "0000" + x;
      LowerStrConcat("0000", x);
      SuffixesAreLowerCase();
      LowerStrOfLowerCase("0000");
    }
    assert BaseUuid(x) == "0000" + LowerStr(x) + BaseSuffix by {
      var r := BaseUuid(x);
      assert r == r[..4] + r[4..8] + r[8..];
    }
    LowerStrConcat(head, RemoveDashes(tail));
  }

  /** "180A" and "0000180a-0000-1000-8000-00805f9b34fb" denote one attribute:
      any short form and its dashed form canonicalise to the same string. */
  lemma ShortAndDashedAgree(x: string)
    requires |x| == 4 && forall i :: 0 <= i < 4 ==> IsHexDigit(x[i])
    ensures IsBaseUuidDash(Dashed(x))
    ensures LowerStr(RemoveDashes(Dashed(x))) == BaseUuid(x)
  {
    DashedIsBaseUuidDash(x);
    DashedCanonical(Dashed(x));
    assert Dashed(x)[4..8] == x;
  }

  /** The undashed output of `BaseUuid` never passes the dashed-form test,
      whatever its argument. */
  lemma BaseUuidIsNotDashed(x: string)
    ensures !IsBaseUuidDash(BaseUuid(x))
  {
    var r := BaseUuid(x);
    if |r| == 36 {
      assert |x| == 8;
      assert r[13] == r[12..][1] == BaseSuffix[1] == '0';
      assert LowerStr(r[8..])[5] == Lower(r[13]) == '0';
      assert DashedBaseSuffix[5] == '-';
    }
  }

  /** The Device Name characteristic test of the discovery callback:
      `removeDashes(uuid)` equals "2a00" or `BaseUUID('2A00')`. The
      comparison is case-sensitive. */
  predicate IsDeviceNameUuid(uuid: string)
    ensures IsDeviceNameUuid(uuid) ==>
      IsLowerCase(RemoveDashes(uuid)) && (|RemoveDashes(uuid)| == 4 || |RemoveDashes(uuid)| == 32)
  {
    RemoveDashes(uuid) == "2a00" || RemoveDashes(uuid) == BaseUuid("2A00")
  }

  lemma LowerOf2A00()
    ensures LowerStr("2A00") == "2a00"
  {
    assert LowerStr("2A00")[1] == Lower('A') == 'a';
  }

  /** The expansion of a short form without dashes has none. */
  lemma BaseUuidDashFree(x: string)
    requires '-' !in x
    ensures '-' !in BaseUuid(x)
  {
    var r := BaseUuid(x);
    assert '-' !in BaseSuffix;
    forall i | 0 <= i < |r|
      ensures r[i] != '-'
    {
      if i < 4 {
        assert r[i] == r[..4][i];
      } else if i < 4 + |x| {
        assert r[i] == r[4..4 + |x|][i - 4] == Lower(x[i - 4]);
        assert x[i - 4] != '-';
      } else {
        assert r[i] == r[4 + |x|..][i - 4 - |x|];
      }
    }
  }

  /** The short form is recognised only in lower case. */
  lemma DeviceNameShortForm()
    ensures IsDeviceNameUuid("2a00")
    ensures !IsDeviceNameUuid("2A00")
  {
    var lower, upper := "2a00", "2A00";
    assert '-' !in lower by { assert forall i :: 0 <= i < |lower| ==> lower[i] != '-'; }
    assert '-' !in upper by { assert forall i :: 0 <= i < |upper| ==> upper[i] != '-'; }
    RemoveDashesOfDashFree(lower);
    RemoveDashesOfDashFree(upper);
    assert |BaseUuid(upper)| == 32;
  }

  /** The 32-character expansion of 0x2A00 is recognised. */
  lemma DeviceNameExpandedForm()
    ensures IsDeviceNameUuid(BaseUuid("2a00"))
  {
    LowerOf2A00();
    BaseUuidCaseInsensitive("2a00", "2A00");
    BaseUuidDashFree("2a00");
    RemoveDashesOfDashFree(BaseUuid("2a00"));
  }

  /** For a lower-case identifier in dashed Base-UUID form, the Device Name
      test holds exactly when its four hex digits are "2a00". */
  lemma DeviceNameOfDashed(u: string)
    requires IsBaseUuidDash(u) && IsLowerCase(u)
    ensures IsDeviceNameUuid(u) <==> LowerStr(u[4..8]) == "2a00"
  {
    DashedCanonical(u);
    LowerRemoveDashesCommute(u);
    LowerStrOfLowerCase(u);
    assert RemoveDashes(u) == BaseUuid(u[4..8]);
    assert |BaseUuid(u[4..8])| == 32;
    BaseUuidCaseInsensitive(u[4..8], "2A00");
    LowerOf2A00();
  }

  /** The lower-case dashed form of 0x2A00 is recognised. */
  lemma DeviceNameDashedForm()
    ensures IsDeviceNameUuid(Dashed("2a00"))
  {
    var x := "2a00";
    assert forall i :: 0 <= i < 4 ==> IsHexDigit(x[i]);
    DashedIsBaseUuidDash(x);
    SuffixesAreLowerCase();
    assert IsLowerCase(x);
    var u := Dashed(x);
    assert IsLowerCase(u);
    assert u[4..8] == x;
    LowerStrOfLowerCase(x);
    DeviceNameOfDashed(u);
  }
}
