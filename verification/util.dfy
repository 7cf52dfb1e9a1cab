/**
 * The formatting helpers of utils/util.js: two-digit padding, the
 * `y/MM/dd HH:mm:ss` timestamp, relative-time buckets and the image-path
 * to URL rule. The clock is not read here: callers pass calendar components
 * and the millisecond difference between now and the stamped time.
 */
module Util {
  import opened Wrappers
  import opened Text

  /** Calendar components as `Date` reports them, with the month counted from 1. */
  datatype DateTime = DateTime(year: nat, month: nat, day: nat, hour: nat, minute: nat, second: nat)

  /** `formatNumber`: the decimal text, with a '0' in front when it has a single character. */
  function FormatNumber(n: nat): (s: string)
    ensures |s| >= 2 && AllDigits(s)
    ensures DecimalValue(s) == n
    ensures n < 10 ==> s == ['0', DigitChar(n)]
    ensures n >= 10 ==> s == NatToString(n)
  {
    var t := NatToString(n);
    DecimalRoundTrip(n);
    if |t| >= 2 then t
    else
      LeadingZero(t);
      "0" + t
  }

  /** The part of the timestamp before the space: `y/MM/dd`. */
  function DateText(d: DateTime): string {
    FormatNumber(d.year) + "/" + FormatNumber(d.month) + "/" + FormatNumber(d.day)
  }

  /** The part of the timestamp after the space: `HH:mm:ss`. */
  function ClockText(d: DateTime): string {
    FormatNumber(d.hour) + ":" + FormatNumber(d.minute) + ":" + FormatNumber(d.second)
  }

  /**
   * `formatTime`: the date fields joined by '/', a space, the clock fields
   * joined by ':'. The space is the only one, so splitting on it gives the
   * date half and the clock half.
   */
  function FormatTime(d: DateTime): (r: string)
    ensures SplitOn(r, ' ') == [DateText(d), ClockText(d)]
  {
    var y, mo, dd := FormatNumber(d.year), FormatNumber(d.month), FormatNumber(d.day);
    var h, mi, se := FormatNumber(d.hour), FormatNumber(d.minute), FormatNumber(d.second);
    DigitsAvoid(y, ' '); DigitsAvoid(mo, ' '); DigitsAvoid(dd, ' ');
    DigitsAvoid(h, ' '); DigitsAvoid(mi, ' '); DigitsAvoid(se, ' ');
    assert ' ' !in DateText(d);
    assert ' ' !in ClockText(d);
    SplitWithout(ClockText(d), ' ');
    SplitAfter(DateText(d), ' ', ClockText(d));
    DateText(d) + " " + ClockText(d)
  }

  /** Reads a timestamp in the layout FormatTime writes; None when the layout does not match. */
  function ParseTime(s: string): Option<DateTime> {
    var halves := SplitOn(s, ' ');
    if |halves| != 2 then None
    else
      var ds := SplitOn(halves[0], '/');
      var ts := SplitOn(halves[1], ':');
      if |ds| != 3 || |ts| != 3 then None
      else Some(DateTime(DecimalValue(ds[0]), DecimalValue(ds[1]), DecimalValue(ds[2]),
                         DecimalValue(ts[0]), DecimalValue(ts[1]), DecimalValue(ts[2])))
  }

  /** Splits `x c y c z` into its three fields when none of them contains `c`. */
  lemma SplitThree(x: string, y: string, z: string, c: char)
    requires c !in x && c !in y && c !in z
    ensures SplitOn(x + [c] + y + [c] + z, c) == [x, y, z]
  {
    SplitWithout(z, c);
    SplitAfter(y, c, z);
    assert x + [c] + y + [c] + z == x + [c] + (y + [c] + z);
    SplitAfter(x, c, y + [c] + z);
  }

  /** Every field of a formatted timestamp reads back as the component it came from. */
  lemma {:induction false} FormatTimeRoundTrip(d: DateTime)
    ensures ParseTime(FormatTime(d)) == Some(d)
  {
    var y, mo, dd := FormatNumber(d.year), FormatNumber(d.month), FormatNumber(d.day);
    var h, mi, se := FormatNumber(d.hour), FormatNumber(d.minute), FormatNumber(d.second);
    DigitsAvoid(y, '/'); DigitsAvoid(mo, '/'); DigitsAvoid(dd, '/');
    DigitsAvoid(h, ':'); DigitsAvoid(mi, ':'); DigitsAvoid(se, ':');
    SplitThree(y, mo, dd, '/');
    SplitThree(h, mi, se, ':');
  }

  const Minute: int := 60000
  const Hour: int := 3600000
  const Day: int := 86400000
  const ThirtyDays: int := 2592000000

  /**
   * `formatRelativeTime`: '' for an empty input, otherwise a bucket of the
   * elapsed milliseconds `diff`, falling back to the date half of the
   * timestamp of `date` from thirty days on.
   */
  function FormatRelativeTime(timeStr: string, diff: int, date: DateTime): (r: string)
    ensures r == "" <==> timeStr == ""
    ensures timeStr != "" && diff < Minute ==> r == "刚刚"
    ensures timeStr != "" && diff >= ThirtyDays ==> r == DateText(date)
  {
    if timeStr == "" then ""
    else if diff < Minute then "刚刚"
    else if diff < Hour then NatToString(diff / Minute) + "分钟前"
    else if diff < Day then NatToString(diff / Hour) + "小时前"
    else if diff < ThirtyDays then NatToString(diff / Day) + "天前"
    else SplitOn(FormatTime(date), ' ')[0]
  }

  /** The count shown in a bucket is the floor of the elapsed time in that unit, and stays inside the bucket. */
  lemma RelativeTimeBuckets(timeStr: string, diff: int, date: DateTime)
    requires timeStr != ""
    ensures Minute <= diff < Hour ==>
      exists m: nat :: 1 <= m < 60 && m * Minute <= diff < (m + 1) * Minute && FormatRelativeTime(timeStr, diff, date) == NatToString(m) + "分钟前"
    ensures Hour <= diff < Day ==>
      exists h: nat :: 1 <= h < 24 && h * Hour <= diff < (h + 1) * Hour && FormatRelativeTime(timeStr, diff, date) == NatToString(h) + "小时前"
    ensures Day <= diff < ThirtyDays ==>
      exists n: nat :: 1 <= n < 30 && n * Day <= diff < (n + 1) * Day && FormatRelativeTime(timeStr, diff, date) == NatToString(n) + "天前"
  {
    if Minute <= diff < Hour {
      FloorInBucket(diff, Minute, 60);
      var m: nat := diff / Minute;
      assert FormatRelativeTime(timeStr, diff, date) == NatToString(m) + "分钟前";
    } else if Hour <= diff < Day {
      FloorInBucket(diff, Hour, 24);
      var h: nat := diff / Hour;
      assert FormatRelativeTime(timeStr, diff, date) == NatToString(h) + "小时前";
    } else if Day <= diff < ThirtyDays {
      FloorInBucket(diff, Day, 30);
      var n: nat := diff / Day;
      assert FormatRelativeTime(timeStr, diff, date) == NatToString(n) + "天前";
    }
  }

  lemma FloorInBucket(diff: int, unit: int, count: int)
    requires 0 < unit <= diff < count * unit
    ensures 1 <= diff / unit < count
    ensures (diff / unit) * unit <= diff < (diff / unit + 1) * unit
  {
    var q, r := diff / unit, diff % unit;
    assert diff == q * unit + r && 0 <= r < unit;
  }

  /**
   * The data-URL prefix shared by the three inline SVG placeholders. Each
   * placeholder is held as this prefix and a short stand-in for its base64
   * body: no property here depends on the picture itself, only on the three
   * being distinct data URLs.
   */
  const SvgDataUrl := "data:image/svg+xml;base64,"
  /** The placeholder for a missing image. */
  const DefaultImage := SvgDataUrl + "dish-400x300"
  /** The placeholder for a path naming the default banner. */
  const BannerPlaceholder := SvgDataUrl + "banner-800x400"
  /** The placeholder for a path naming the default category picture. */
  const CategoryPlaceholder := SvgDataUrl + "category-200x200"
  /** The server route that serves stored files. */
  const PreviewRoute := "/admin/file/preview/"

  /**
   * `getImageUrl`: the cases are tried in order: empty path, absolute 'http'
   * path, banner placeholder, category placeholder, stored file served by
   * `baseUrl`.
   */
  function GetImageUrl(path: string, baseUrl: string): (url: string)
    ensures path == "" ==> url == DefaultImage
    ensures path != "" && StartsWith(path, "http") ==> url == path
    ensures path != "" && !StartsWith(path, "http") && Contains(path, "default-banner") ==> url == BannerPlaceholder
    ensures path != "" && !StartsWith(path, "http") && !Contains(path, "default-banner") && Contains(path, "default-category")
      ==> url == CategoryPlaceholder
    ensures path != "" && !StartsWith(path, "http") && !Contains(path, "default-banner") && !Contains(path, "default-category")
      ==> url == baseUrl + PreviewRoute + path
  {
    if path == "" then DefaultImage
    else if StartsWith(path, "http") then path
    else if Contains(path, "default-banner") then BannerPlaceholder
    else if Contains(path, "default-category") then CategoryPlaceholder
    else baseUrl + PreviewRoute + path
  }

  /**
   * A stored path is served from under the base URL and can be read back
   * from the URL; an absolute path wins over the placeholder names it contains.
   */
  lemma ImageUrlCases(path: string, baseUrl: string)
    requires path != ""
    ensures StartsWith(path, "http") && Contains(path, "default-banner") ==> GetImageUrl(path, baseUrl) == path
    ensures !StartsWith(path, "http") && !Contains(path, "default-banner") && !Contains(path, "default-category") ==>
      var url := GetImageUrl(path, baseUrl);
      StartsWith(url, baseUrl + PreviewRoute) && url[|baseUrl + PreviewRoute|..] == path
  {
  }
}
