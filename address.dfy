/** The target address of the relay: the command-line check of the MAC
    address and the scan filter that compares discovered addresses with it. */
module Address {
  import opened Uuid

  /** `[a-fA-F0-9]{2}` */
  predicate IsOctet(s: string)
  {
    |s| == 2 && IsHexDigit(s[0]) && IsHexDigit(s[1])
  }

  /** `(:[a-fA-F0-9]{2}){n}`, anchored at both ends. */
  predicate ColonOctets(s: string, n: nat)
    ensures ColonOctets(s, n) ==> |s| == 3 * n
  {
    if n == 0 then s == []
    else |s| >= 3 && s[0] == ':' && IsOctet(s[1..3]) && ColonOctets(s[3..], n - 1)
  }

  /** The address pattern `^[a-fA-F0-9]{2}(:[a-fA-F0-9]{2}){5}$`. */
  predicate IsMacAddress(s: string)
    ensures IsMacAddress(s) ==> |s| == 17 && s[2] == ':'
  {
    |s| >= 2 && IsOctet(s[..2]) && ColonOctets(s[2..], 5)
  }

  /** The positional reading of `ColonOctets`. */
  lemma {:induction false} ColonOctetsPositions(s: string, n: nat)
    ensures ColonOctets(s, n) <==> ColonGroups(s, n)
  {
    if n > 0 && |s| >= 3 {
      var t := s[3..];
      ColonOctetsPositions(t, n - 1);
      assert s[1..3][0] == s[1] && s[1..3][1] == s[2];
      if ColonGroups(s, n) {
        forall k | 0 <= k < n - 1
          ensures t[3 * k] == ':' && IsHexDigit(t[3 * k + 1]) && IsHexDigit(t[3 * k + 2])
        {
          assert t[3 * k] == s[3 * (k + 1)] && t[3 * k + 1] == s[3 * (k + 1) + 1] && t[3 * k + 2] == s[3 * (k + 1) + 2];
        }
        assert s[3 * 0] == ':';
      }
      if s[0] == ':' && IsHexDigit(s[1]) && IsHexDigit(s[2]) && ColonGroups(t, n - 1) {
        forall k | 0 <= k < n
          ensures s[3 * k] == ':' && IsHexDigit(s[3 * k + 1]) && IsHexDigit(s[3 * k + 2])
        {
          if k > 0 {
            assert s[3 * k] == t[3 * (k - 1)] && s[3 * k + 1] == t[3 * (k - 1) + 1] && s[3 * k + 2] == t[3 * (k - 1) + 2];
          }
        }
      }
    }
  }

  /** `n` groups of three characters, each a colon and two hex digits. */
  predicate ColonGroups(s: string, n: nat)
  {
    |s| == 3 * n &&
    forall k :: 0 <= k < n ==> s[3 * k] == ':' && IsHexDigit(s[3 * k + 1]) && IsHexDigit(s[3 * k + 2])
  }

  /** Six two-digit hex groups with colons at positions 2, 5, 8, 11 and 14,
      17 characters in all. */
  predicate MacShape(s: string)
  {
    && |s| == 17
    && (forall k :: 0 <= k < 6 ==> IsHexDigit(s[3 * k]) && IsHexDigit(s[3 * k + 1]))
    && (forall k :: 0 <= k < 5 ==> s[3 * k + 2] == ':')
  }

  /** The address pattern accepts exactly the strings of that shape. */
  lemma MacAddressShape(s: string)
    ensures IsMacAddress(s) <==> MacShape(s)
  {
    if |s| >= 2 {
      var t := s[2..];
      ColonOctetsPositions(t, 5);
      assert s[..2][0] == s[0] && s[..2][1] == s[1];
      if |s| == 17 {
        assert forall k :: 0 <= k < 5 ==> t[3 * k] == s[3 * k + 2] && t[3 * k + 1] == s[3 * (k + 1)] && t[3 * k + 2] == s[3 * (k + 1) + 1];
        if MacShape(s) {
          forall k | 0 <= k < 5
            ensures t[3 * k] == ':' && IsHexDigit(t[3 * k + 1]) && IsHexDigit(t[3 * k + 2])
          {
            assert IsHexDigit(s[3 * (k + 1)]) && IsHexDigit(s[3 * (k + 1) + 1]);
          }
          assert IsHexDigit(s[3 * 0]) && IsHexDigit(s[3 * 0 + 1]);
          assert ColonGroups(t, 5);
        }
        if IsMacAddress(s) {
          forall k | 0 <= k < 6
            ensures IsHexDigit(s[3 * k]) && IsHexDigit(s[3 * k + 1])
          {
            if k > 0 {
              assert t[3 * (k - 1) + 1] == s[3 * k] && t[3 * (k - 1) + 2] == s[3 * k + 1];
            }
          }
          forall k | 0 <= k < 5 ensures s[3 * k + 2] == ':' {
            assert t[3 * k] == ':';
          }
        }
      }
    }
  }

  /** Lower-casing an accepted address gives an accepted address. */
  lemma LowerMacAddress(s: string)
    requires IsMacAddress(s)
    ensures IsMacAddress(LowerStr(s)) && IsLowerCase(LowerStr(s))
  {
    MacAddressShape(s);
    MacAddressShape(LowerStr(s));
  }

  /** The scan filter: `peripheral.address !== TARGET_MAC.toLowerCase()`
      rejects a discovery, so a discovery is accepted exactly when its
      address equals the lower-cased target. */
  predicate ScanMatch(address: string, target: string)
    ensures ScanMatch(address, target) ==> |address| == |target| && IsLowerCase(address)
  {
    address == LowerStr(target)
  }

  /** For a valid target, an accepted address is itself a lower-case MAC
      address, and it is the target up to case. Any address with an
      upper-case letter is rejected. */
  lemma ScanMatchMeaning(address: string, target: string)
    requires IsMacAddress(target)
    ensures ScanMatch(address, target) ==>
      IsMacAddress(address) && IsLowerCase(address) && LowerStr(address) == LowerStr(target)
    ensures !IsLowerCase(address) ==> !ScanMatch(address, target)
  {
    LowerMacAddress(target);
  }

  /** A lower-case address is accepted exactly when it equals the target
      ignoring case. */
  lemma ScanMatchIgnoresTargetCase(address: string, target: string)
    requires IsLowerCase(address)
    ensures ScanMatch(address, target) <==> LowerStr(address) == LowerStr(target)
  {
    LowerStrOfLowerCase(address);
  }

  datatype ArgError = Usage | IllegalMac

  datatype ArgResult = Accepted(target: string) | Rejected(error: ArgError)

  /** The start-up checks on the command-line arguments that follow the
      script name: none gives the usage message, a first argument that is
      not a MAC address gives "Illegal MAC Address"; both exit with status 1.
      Further arguments only switch on debug logging. */
  function ParseArguments(argv: seq<string>): (r: ArgResult)
    ensures r == Rejected(Usage) <==> |argv| == 0
    ensures r == Rejected(IllegalMac) <==> |argv| > 0 && !IsMacAddress(argv[0])
    ensures r.Accepted? ==> r.target == argv[0] && IsMacAddress(r.target)
  {
    if |argv| == 0 then Rejected(Usage)
    else if !IsMacAddress(argv[0]) then Rejected(IllegalMac)
    else Accepted(argv[0])
  }
}
