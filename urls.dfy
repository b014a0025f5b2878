/**
 * The tile download URL of streetview/download.py (make_download_url), together with
 * the decimal rendering of integers that Python's f-strings perform on `zoom`, `x` and `y`.
 */
module Urls {

  /** Fixed part of every tile URL, up to the panorama id. */
  const TileUrlPrefix: string := "https://cbk0.google.com/cbk?output=tile&panoid="

  /** The query parameters that follow the panorama id, in order. */
  const ZoomParam: string := "&zoom="
  const XParam: string := "&x="
  const YParam: string := "&y="

  predicate IsDigit(ch: char) {
    '0' <= ch <= '9'
  }

  predicate AllDigits(s: string) {
    forall i :: 0 <= i < |s| ==> IsDigit(s[i])
  }

  /** True when `s` contains no '&', the separator between query parameters. */
  predicate NoAmpersand(s: string) {
    forall i :: 0 <= i < |s| ==> s[i] != '&'
  }

  function DigitChar(d: nat): (ch: char)
    requires d < 10
    ensures IsDigit(ch)
  {
    (('0' as int) + d) as char
  }

  function DigitValue(ch: char): int {
    (ch as int) - ('0' as int)
  }

  /** Decimal digits of `n`, most significant first, as `str(n)` gives them. */
  function NatToDecimal(n: nat): string
    decreases n
  {
    if n < 10 then [DigitChar(n)] else NatToDecimal(n / 10) + [DigitChar(n % 10)]
  }

  /** The value a string of decimal digits denotes. */
  function DecimalValue(s: string): int {
    if s == [] then 0 else DecimalValue(s[..|s| - 1]) * 10 + DigitValue(s[|s| - 1])
  }

  /** `str(i)` for a Python int: a minus sign for negative values, then the digits. */
  function IntToDecimal(i: int): string {
    if i < 0 then "-" + NatToDecimal(-i) else NatToDecimal(i)
  }

  /** The rendering of a natural number is a non-empty string of digits. */
  lemma {:induction false} DecimalDigits(n: nat)
    ensures |NatToDecimal(n)| >= 1 && AllDigits(NatToDecimal(n))
    decreases n
  {
    if n >= 10 {
      DecimalDigits(n / 10);
    }
  }

  /** A rendered integer holds no '&', so it cannot run into the next query parameter. */
  lemma DecimalNoAmpersand(i: int)
    ensures NoAmpersand(IntToDecimal(i))
  {
    DecimalDigits(if i < 0 then -i else i);
  }

  /** Reading back the digits that NatToDecimal writes gives the number again. */
  lemma {:induction false} DecimalRoundTrip(n: nat)
    ensures DecimalValue(NatToDecimal(n)) == n
    decreases n
  {
    if n >= 10 {
      var s := NatToDecimal(n);
      var prefix := NatToDecimal(n / 10);
      assert s == prefix + [DigitChar(n % 10)];
      assert s[..|s| - 1] == prefix;
      DecimalRoundTrip(n / 10);
    }
  }

  /** The rendering of `i` starts with a minus sign exactly when `i` is negative. */
  lemma SignOfDecimal(i: int)
    ensures |IntToDecimal(i)| >= 1
    ensures IntToDecimal(i)[0] == '-' <==> i < 0
  {
    DecimalDigits(if i < 0 then -i else i);
    if i >= 0 {
      assert IsDigit(NatToDecimal(i)[0]);
    }
  }

  /** Different integers are rendered as different strings. */
  lemma IntToDecimalInjective(i: int, j: int)
    requires IntToDecimal(i) == IntToDecimal(j)
    ensures i == j
  {
    var si, sj := IntToDecimal(i), IntToDecimal(j);
    SignOfDecimal(i);
    SignOfDecimal(j);
    if i < 0 {
      assert NatToDecimal(-i) == si[1..] == sj[1..] == NatToDecimal(-j);
      DecimalRoundTrip(-i);
      DecimalRoundTrip(-j);
    } else {
      DecimalRoundTrip(i);
      DecimalRoundTrip(j);
    }
  }

  /**
   * The URL of tile (x, y) of panorama `panoId` at level `zoom`:
   * the fixed prefix, then panoid, zoom, x and y as query parameters, in that order.
   */
  function MakeDownloadUrl(panoId: string, zoom: int, x: int, y: int): string {
    TileUrlPrefix + panoId + ZoomParam + IntToDecimal(zoom) + XParam + IntToDecimal(x) + YParam + IntToDecimal(y)
  }

  /**
   * The URL is the fixed prefix, the panorama id, then "&zoom=", "&x=" and "&y=", each
   * followed by the rendering of its value.
   */
  lemma DownloadUrlLayout(panoId: string, zoom: int, x: int, y: int)
    ensures var url := MakeDownloadUrl(panoId, zoom, x, y);
      var zs, xs, ys := IntToDecimal(zoom), IntToDecimal(x), IntToDecimal(y);
      var n := |TileUrlPrefix| + |panoId|;
      |url| == n + 6 + |zs| + 3 + |xs| + 3 + |ys| &&
      url[..|TileUrlPrefix|] == TileUrlPrefix && url[|TileUrlPrefix|..n] == panoId &&
      url[n..n + 6] == "&zoom=" && url[n + 6..n + 6 + |zs|] == zs &&
      url[n + 6 + |zs|..n + 9 + |zs|] == "&x=" && url[n + 9 + |zs|..n + 9 + |zs| + |xs|] == xs &&
      url[n + 9 + |zs| + |xs|..n + 12 + |zs| + |xs|] == "&y=" && url[n + 12 + |zs| + |xs|..] == ys
  {
    var zs, xs, ys := IntToDecimal(zoom), IntToDecimal(x), IntToDecimal(y);
    var url := MakeDownloadUrl(panoId, zoom, x, y);
    var n := |TileUrlPrefix| + |panoId|;
    assert url == TileUrlPrefix + panoId + ZoomParam + zs + XParam + xs + YParam + ys;
  }

  /** A separator such as "&x=": one '&', in front. */
  predicate IsSeparator(sep: string) {
    |sep| > 0 && sep[0] == '&' && NoAmpersand(sep[1..])
  }

  /** In `u + sep + v` with no '&' in `v`, an '&' at or after `|u|` is the separator's own. */
  lemma LastAmpersand(u: string, sep: string, v: string, k: int)
    requires IsSeparator(sep) && NoAmpersand(v)
    requires |u| <= k < |u + sep + v| && (u + sep + v)[k] == '&'
    ensures k == |u|
  {
  }

  /**
   * Two strings `u + sep + v` agree only when their parts do, provided `v` holds no '&':
   * the last '&' marks where `u` ends.
   */
  lemma SplitAtSeparator(u1: string, v1: string, u2: string, v2: string, sep: string)
    requires IsSeparator(sep) && NoAmpersand(v1) && NoAmpersand(v2)
    requires u1 + sep + v1 == u2 + sep + v2
    ensures u1 == u2 && v1 == v2
  {
    var s := u1 + sep + v1;
    var r := if |v1| <= |v2| then |v1| else |v2|;
    var k := |s| - |sep| - r;
    assert s[k] == '&';
    LastAmpersand(u1, sep, v1, k);
    LastAmpersand(u2, sep, v2, k);
    assert u1 == s[..k] == u2;
    assert v1 == s[k + |sep|..] == v2;
  }

  /** Within one panorama and zoom level, the URL determines the tile coordinates. */
  lemma DownloadUrlInjective(panoId: string, zoom: int, x1: int, y1: int, x2: int, y2: int)
    requires MakeDownloadUrl(panoId, zoom, x1, y1) == MakeDownloadUrl(panoId, zoom, x2, y2)
    ensures x1 == x2 && y1 == y2
  {
    var head := TileUrlPrefix + panoId + ZoomParam + IntToDecimal(zoom);
    var sx1, sy1, sx2, sy2 := IntToDecimal(x1), IntToDecimal(y1), IntToDecimal(x2), IntToDecimal(y2);
    var left1, left2 := head + XParam + sx1, head + XParam + sx2;
    assert IsSeparator(XParam) && IsSeparator(YParam);
    DecimalNoAmpersand(x1);
    DecimalNoAmpersand(x2);
    DecimalNoAmpersand(y1);
    DecimalNoAmpersand(y2);
    SplitAtSeparator(left1, sy1, left2, sy2, YParam);
    SplitAtSeparator(head, sx1, head, sx2, XParam);
    IntToDecimalInjective(x1, x2);
    IntToDecimalInjective(y1, y2);
  }
}
