/**
  The two postcode normalisations of the data finder and the territory test.
  `AddressBaseGeocoder.format_postcode` keeps `[A-Z0-9]` of the upper-cased
  input and puts one space before the last three characters (AddressBase holds
  postcodes as `AA1 1AA`); `RoutingHelper` keeps the same characters with no
  space; `get_territory` tells Northern Ireland (`BT...`) from Great Britain.
*/
module Postcodes {
  import opened Text

  /** `re.sub('[^A-Z0-9]', '', postcode.upper())`, the form `RoutingHelper` queries with. */
  function Normalize(postcode: string): (n: string)
    ensures |n| <= |postcode|
    ensures forall i :: 0 <= i < |n| ==> IsUpperAlnum(n[i])
  {
    KeepUpperAlnum(Upper(postcode))
  }

  /** How many characters Python's `s[-3:]` takes from a string of `len` characters. */
  function InwardLength(len: nat): nat
  {
    if len < 3 then len else 3
  }

  /** `n[:-3] + ' ' + n[-3:]`: a space before the last three characters. */
  function InsertSpace(n: string): (r: string)
    ensures |r| == |n| + 1
    ensures var k := |n| - InwardLength(|n|);
      && r[k] == ' '
      && (forall i :: 0 <= i < k ==> r[i] == n[i])
      && (forall i :: k < i < |r| ==> r[i] == n[i - 1])
  {
    var k := |n| - InwardLength(|n|);
    n[..k] + (" " + n[k..])
  }

  /** `AddressBaseGeocoder.format_postcode`: the normalised postcode with a space
      before its last three characters (before all of them when it is shorter);
      every other character is in `[A-Z0-9]`. */
  function FormatPostcode(postcode: string): (r: string)
    ensures |r| == |Normalize(postcode)| + 1
    ensures var k := |r| - 1 - InwardLength(|r| - 1);
      && r[k] == ' '
      && (forall i :: 0 <= i < |r| && i != k ==> IsUpperAlnum(r[i]))
  {
    InsertSpace(Normalize(postcode))
  }

  /** Taking the space out of the formatted postcode gives the normalised input,
      with at most three characters after the space. */
  lemma FormatPostcodeAroundSpace(postcode: string)
    ensures var r := FormatPostcode(postcode);
      var n := Normalize(postcode);
      var k := |n| - InwardLength(|n|);
      r[k] == ' ' && |r[k + 1..]| == InwardLength(|n|) <= 3 && r[..k] + r[k + 1..] == n
  {
    var r := FormatPostcode(postcode);
    var n := Normalize(postcode);
    var k := |n| - InwardLength(|n|);
    assert r[..k] == n[..k];
    assert r[k + 1..] == n[k..];
    assert n == n[..k] + n[k..];
  }

  /** The postcode contains exactly one space: there is one position holding it,
      and every other character is outside the space. */
  lemma FormatPostcodeHasOneSpace(postcode: string)
    ensures var r := FormatPostcode(postcode);
      exists k :: 0 <= k < |r| && r[k] == ' ' && forall i :: 0 <= i < |r| && r[i] == ' ' ==> i == k
  {
    var n := Normalize(postcode);
    OnlySpaceAt(FormatPostcode(postcode), |n| - InwardLength(|n|));
  }

  lemma OnlySpaceAt(r: string, k: nat)
    requires k < |r| && r[k] == ' '
    requires forall i :: 0 <= i < |r| && i != k ==> IsUpperAlnum(r[i])
    ensures exists k :: 0 <= k < |r| && r[k] == ' ' && forall i :: 0 <= i < |r| && r[i] == ' ' ==> i == k
  {
    assert forall i :: 0 <= i < |r| && r[i] == ' ' ==> i == k;
  }

  /** Removing the space again: the filter drops it and keeps the rest. */
  lemma NormalizeDropsSpace(a: string, b: string)
    requires forall i :: 0 <= i < |a| ==> IsUpperAlnum(a[i])
    requires forall i :: 0 <= i < |b| ==> IsUpperAlnum(b[i])
    ensures Normalize(a + (" " + b)) == a + b
  {
    UpperOfSpaced(a, b);
    KeepAppend(a, " " + b);
    KeepUpperAlnumFixed(a);
    KeepSkipsSpace(b);
    KeepUpperAlnumFixed(b);
  }

  lemma KeepSkipsSpace(b: string)
    ensures KeepUpperAlnum(" " + b) == KeepUpperAlnum(b)
  {
    assert (" " + b)[1..] == b;
  }

  lemma UpperOfSpaced(a: string, b: string)
    requires forall i :: 0 <= i < |a| ==> IsUpperAlnum(a[i])
    requires forall i :: 0 <= i < |b| ==> IsUpperAlnum(b[i])
    ensures Upper(a + (" " + b)) == a + (" " + b)
  {
    var r := a + (" " + b);
    forall i | 0 <= i < |r| ensures !('a' <= r[i] <= 'z') {
      if i < |a| {
        assert r[i] == a[i];
      } else if i > |a| {
        assert r[i] == b[i - |a| - 1];
      }
    }
    UpperOfUpper(r);
  }

  /** Normalising an AddressBase-formatted postcode gives the normalised input:
      the two forms differ by the one space only. */
  lemma NormalizeFormatted(postcode: string)
    ensures Normalize(FormatPostcode(postcode)) == Normalize(postcode)
  {
    var r := FormatPostcode(postcode);
    var k := |r| - 1 - InwardLength(|r| - 1);
    FormatPostcodeAroundSpace(postcode);
    AroundPosition(r, k);
    var a, b := r[..k], r[k + 1..];
    assert forall i :: 0 <= i < |a| ==> a[i] == r[i];
    assert forall i :: 0 <= i < |b| ==> b[i] == r[k + 1 + i];
    NormalizeDropsSpace(a, b);
  }

  /** A string is what comes before position `k`, the character there, and what comes after. */
  lemma AroundPosition(r: string, k: nat)
    requires k < |r| && r[k] == ' '
    ensures r == r[..k] + (" " + r[k + 1..])
  {
  }

  /** `Normalize` is idempotent. */
  lemma NormalizeIdempotent(postcode: string)
    ensures Normalize(Normalize(postcode)) == Normalize(postcode)
  {
    var n := Normalize(postcode);
    UpperOfUpper(n);
    KeepUpperAlnumFixed(n);
  }

  /** `format_postcode` is idempotent. */
  lemma FormatPostcodeIdempotent(postcode: string)
    ensures FormatPostcode(FormatPostcode(postcode)) == FormatPostcode(postcode)
  {
    NormalizeFormatted(postcode);
  }

  datatype Territory = NI | GB

  /** `get_territory`: Northern Ireland exactly when the postcode, as given, starts with `BT`. */
  function GetTerritory(postcode: string): (t: Territory)
    ensures t == NI <==> "BT" <= postcode
  {
    if |postcode| >= 2 && postcode[..2] == "BT" then NI else GB
  }

  lemma TerritoryExamples()
    ensures GetTerritory("BT1 1AA") == NI
    ensures GetTerritory("CF10 5AJ") == GB
    ensures GetTerritory("bt1 1aa") == GB
    ensures GetTerritory("B") == GB
  {
    assert "BT1 1AA"[..2] == "BT";
    assert "CF10 5AJ"[0] != 'B' && "bt1 1aa"[0] != 'B';
  }
}
