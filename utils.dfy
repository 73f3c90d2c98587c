/**
 * The formatting helpers of `utils.py`: link-speed text and marketing label, protocol-version
 * label, and the release-version comparison of `UpdateChecker`.
 */
module Utils {
  import opened Wrappers
  import opened Text

  // ---------------------------------------------------------------------------------------
  // format_speed
  // ---------------------------------------------------------------------------------------

  /** The signalling rates (Mbps) with a fixed text and USB marketing label. */
  const StandardRates: map<int, (string, string)> := map[
    1 := ("1.5 Mbps", "USB 1.1 Low Speed"),
    12 := ("12 Mbps", "USB 1.1 Full Speed"),
    480 := ("480 Mbps", "USB 2.0 High Speed"),
    5000 := ("5 Gbps", "USB 3.2 Gen 1 (SuperSpeed)"),
    10000 := ("10 Gbps", "USB 3.2 Gen 2 (SuperSpeed+)"),
    20000 := ("20 Gbps", "USB 3.2 Gen 2x2 (SuperSpeed+ 20G)"),
    40000 := ("40 Gbps", "USB4 Gen 3x2"),
    80000 := ("80 Gbps", "USB4 Gen 4 (USB4 v2)")
  ]

  /**
   * `format_speed(s)`: the text and the marketing label for a raw Mbps reading.
   * Empty or "N/A" is unknown; text that `int()` rejects is shown as it is, without a label.
   */
  function FormatSpeed(s: string): (r: (string, string))
    ensures |r.0| > 0
    ensures ParseInt(s).Some? ==> HasUnit(r.0)
    ensures ParseInt(s).None? ==> r.1 == ""
  {
    EmptyAndNotAvailableAreNotNumbers();
    if s == "" || s == "N/A" then ("Unknown", "")
    else
      match ParseInt(s)
      case None => (s, "")
      case Some(n) => FormatMbps(n)
  }

  /** A speed text ending in a unit, "Mbps" or "Gbps". */
  predicate HasUnit(t: string) {
    |t| >= 5 && t[|t| - 5..] in {" Mbps", " Gbps"}
  }

  /** The integer branches of `format_speed`. */
  function FormatMbps(n: int): (r: (string, string))
    ensures HasUnit(r.0)
  {
    if n == 1 then ("1.5 Mbps", "USB 1.1 Low Speed")
    else if n == 12 then ("12 Mbps", "USB 1.1 Full Speed")
    else if n == 480 then ("480 Mbps", "USB 2.0 High Speed")
    else if n == 5000 then ("5 Gbps", "USB 3.2 Gen 1 (SuperSpeed)")
    else if n == 10000 then ("10 Gbps", "USB 3.2 Gen 2 (SuperSpeed+)")
    else if n == 20000 then ("20 Gbps", "USB 3.2 Gen 2x2 (SuperSpeed+ 20G)")
    else if n == 40000 then ("40 Gbps", "USB4 Gen 3x2")
    else if n == 80000 then ("80 Gbps", "USB4 Gen 4 (USB4 v2)")
    else if n >= 1000 then (GbpsText(n), "")
    else (IntToString(n) + " Mbps", "")
  }

  /**
   * `f"{n/1000:g} Gbps"` for `1000 <= n < 1000000`: the decimal value of n/1000 with trailing
   * fractional zeros (and a bare point) dropped.
   */
  function GbpsText(n: int): string
    requires n >= 1000
  {
    var whole := n / 1000;
    var frac := n % 1000;
    if frac == 0 then IntToString(whole) + " Gbps"
    else
      var three := [DigitChar(frac / 100), DigitChar(frac / 10 % 10), DigitChar(frac % 10)];
      IntToString(whole) + "." + DropTrailingZeros(three) + " Gbps"
  }

  function DropTrailingZeros(s: string): (r: string)
    ensures |r| <= |s| && r == s[..|r|]
    ensures r == [] || r[|r| - 1] != '0'
  {
    if s != [] && s[|s| - 1] == '0' then DropTrailingZeros(s[..|s| - 1]) else s
  }

  /** Empty text and "N/A" both format as an unknown speed without a label. */
  lemma FormatSpeedUnknown(s: string)
    requires s == "" || s == "N/A"
    ensures FormatSpeed(s) == ("Unknown", "")
  {
  }

  /** Text `int()` rejects comes back unchanged with an empty label (the `ValueError` path). */
  lemma FormatSpeedNonNumeric(s: string)
    requires s != "" && s != "N/A" && ParseInt(s).None?
    ensures FormatSpeed(s) == (s, "")
  {
  }

  /** The integer branches agree with the table of standard rates, and give no label elsewhere. */
  lemma FormatMbpsStandard(n: int)
    ensures n in StandardRates ==> FormatMbps(n) == StandardRates[n]
    ensures n !in StandardRates ==> FormatMbps(n).1 == ""
  {
  }

  /** A label is produced exactly when the reading parses to one of the standard rates. */
  lemma FormatSpeedLabelIffStandard(s: string)
    ensures FormatSpeed(s).1 != "" <==> ParseInt(s).Some? && ParseInt(s).value in StandardRates
  {
    EmptyAndNotAvailableAreNotNumbers();
    var parsed := ParseInt(s);
    if parsed.Some? {
      assert FormatSpeed(s) == FormatMbps(parsed.value);
      FormatMbpsLabelIffStandard(parsed.value);
    }
  }

  /** An integer reading gets a label exactly when it is one of the standard rates. */
  lemma FormatMbpsLabelIffStandard(n: int)
    ensures FormatMbps(n).1 != "" <==> n in StandardRates
  {
    FormatMbpsStandard(n);
  }

  /** A non-standard rate below 1000 is shown as "<n> Mbps", and the number shown is n. */
  lemma FormatMbpsSmall(n: int)
    requires n < 1000 && n !in StandardRates
    ensures FormatMbps(n) == (IntToString(n) + " Mbps", "")
    ensures ParseInt(FormatMbps(n).0[..|FormatMbps(n).0| - 5]) == Some(n)
  {
    SmallRateText(n);
    MbpsTextNumber(n);
  }

  /** Below 1000, a rate outside the table takes the last branch of `format_speed`. */
  lemma SmallRateText(n: int)
    requires n < 1000 && n !in StandardRates
    ensures FormatMbps(n) == (IntToString(n) + " Mbps", "")
  {
  }

  /** Dropping the " Mbps" suffix gives back text that parses to the number. */
  lemma MbpsTextNumber(n: int)
    ensures ParseInt((IntToString(n) + " Mbps")[..|IntToString(n) + " Mbps"| - 5]) == Some(n)
  {
    var text := IntToString(n) + " Mbps";
    assert text[..|text| - 5] == IntToString(n);
    ParseIntOfIntToString(n);
  }

  /** Whole multiples of 1000 outside the table are shown as a whole number of Gbps. */
  lemma FormatMbpsWholeGbps(n: int)
    requires n >= 1000 && n % 1000 == 0 && n !in StandardRates
    requires n < 1000000000
    ensures FormatMbps(n) == (IntToString(n / 1000) + " Gbps", "")
  {
  }

  // ---------------------------------------------------------------------------------------
  // get_usb_version_label
  // ---------------------------------------------------------------------------------------

  /** The protocol-version prefixes, in the order they are tried, with their labels. */
  const VersionLabels: seq<(string, string)> := [
    ("1.1", "USB 1.1"), ("2.0", "USB 2.0"), ("2.1", "USB 2.1"), ("3.0", "USB 3.0"),
    ("3.1", "USB 3.1"), ("3.2", "USB 3.2"), ("4.0", "USB4")
  ]

  /** `get_usb_version_label(s)`: the friendly name of a sysfs `version` string. */
  function UsbVersionLabel(s: string): string {
    if s == "" || s == "N/A" then "Unknown"
    else
      var v := Strip(s);
      if "1.1" <= v then "USB 1.1"
      else if "2.0" <= v then "USB 2.0"
      else if "2.1" <= v then "USB 2.1"
      else if "3.0" <= v then "USB 3.0"
      else if "3.1" <= v then "USB 3.1"
      else if "3.2" <= v then "USB 3.2"
      else if "4.0" <= v then "USB4"
      else "USB " + v
  }

  /** Reference reading: the label of the first entry of `table` whose prefix starts `v`. */
  function FirstPrefixLabel(table: seq<(string, string)>, v: string): (r: Option<string>)
    ensures r.Some? ==> exists i :: 0 <= i < |table| && table[i].0 <= v && r.value == table[i].1
    ensures r.None? ==> forall i :: 0 <= i < |table| ==> !(table[i].0 <= v)
  {
    if table == [] then None
    else if table[0].0 <= v then Some(table[0].1)
    else
      var rest := FirstPrefixLabel(table[1..], v);
      assert forall i :: 1 <= i < |table| ==> table[i] == table[1..][i - 1];
      rest
  }

  /** The label is the first matching prefix's, else "USB " before the stripped text. */
  lemma UsbVersionLabelIsFirstMatch(s: string)
    requires s != "" && s != "N/A"
    ensures UsbVersionLabel(s) == FirstPrefixLabel(VersionLabels, Strip(s)).GetOr("USB " + Strip(s))
  {
    var v := Strip(s);
    var t := VersionLabels;
    assert t[1..] == [("2.0", "USB 2.0"), ("2.1", "USB 2.1"), ("3.0", "USB 3.0"), ("3.1", "USB 3.1"), ("3.2", "USB 3.2"), ("4.0", "USB4")];
    assert t[2..] == t[1..][1..] == [("2.1", "USB 2.1"), ("3.0", "USB 3.0"), ("3.1", "USB 3.1"), ("3.2", "USB 3.2"), ("4.0", "USB4")];
    assert t[3..] == t[2..][1..] == [("3.0", "USB 3.0"), ("3.1", "USB 3.1"), ("3.2", "USB 3.2"), ("4.0", "USB4")];
    assert t[4..] == t[3..][1..] == [("3.1", "USB 3.1"), ("3.2", "USB 3.2"), ("4.0", "USB4")];
    assert t[5..] == t[4..][1..] == [("3.2", "USB 3.2"), ("4.0", "USB4")];
    assert t[6..] == t[5..][1..] == [("4.0", "USB4")];
    assert t[6..][1..] == [];
    assert FirstPrefixLabel(t[6..], v) == if "4.0" <= v then Some("USB4") else None;
    assert FirstPrefixLabel(t[5..], v) == if "3.2" <= v then Some("USB 3.2") else FirstPrefixLabel(t[6..], v);
    assert FirstPrefixLabel(t[4..], v) == if "3.1" <= v then Some("USB 3.1") else FirstPrefixLabel(t[5..], v);
    assert FirstPrefixLabel(t[3..], v) == if "3.0" <= v then Some("USB 3.0") else FirstPrefixLabel(t[4..], v);
    assert FirstPrefixLabel(t[2..], v) == if "2.1" <= v then Some("USB 2.1") else FirstPrefixLabel(t[3..], v);
    assert FirstPrefixLabel(t[1..], v) == if "2.0" <= v then Some("USB 2.0") else FirstPrefixLabel(t[2..], v);
    assert FirstPrefixLabel(t, v) == if "1.1" <= v then Some("USB 1.1") else FirstPrefixLabel(t[1..], v);
  }

  /** The two placeholders give "Unknown"; every other version string gets a label starting with "USB". */
  lemma UsbVersionLabelShape(s: string)
    ensures s == "" || s == "N/A" ==> UsbVersionLabel(s) == "Unknown"
    ensures s != "" && s != "N/A" ==> "USB" <= UsbVersionLabel(s)
  {
    if s != "" && s != "N/A" {
      var v := Strip(s);
      assert ("USB " + v)[..3] == "USB";
      TableLabelsStartWithUsb();
    }
  }

  /** Exactly the two placeholders get "Unknown". */
  lemma UsbVersionLabelUnknown(s: string)
    ensures UsbVersionLabel(s) == "Unknown" <==> s == "" || s == "N/A"
  {
    UsbVersionLabelShape(s);
    if s != "" && s != "N/A" {
      UsbLabelNotUnknown(UsbVersionLabel(s));
    }
  }

  /** A text starting with "USB" is not "Unknown". */
  lemma UsbLabelNotUnknown(t: string)
    requires "USB" <= t
    ensures t != "Unknown"
  {
    assert t[1] == 'S' && "Unknown"[1] == 'n';
  }

  /** Each label of the version table starts with "USB". */
  lemma TableLabelsStartWithUsb()
    ensures "USB" <= "USB 1.1" && "USB" <= "USB 2.0" && "USB" <= "USB 2.1" && "USB" <= "USB 3.0"
    ensures "USB" <= "USB 3.1" && "USB" <= "USB 3.2" && "USB" <= "USB4"
  {
  }

  // ---------------------------------------------------------------------------------------
  // UpdateChecker._is_newer
  // ---------------------------------------------------------------------------------------

  /** `[int(x) for x in parts]`; `None` when any piece is rejected by `int()`. */
  function ParseParts(parts: seq<string>): (r: Option<seq<int>>)
    ensures r.Some? ==> |r.value| == |parts|
  {
    AllParsed(seq(|parts|, i requires 0 <= i < |parts| => ParseInt(parts[i])))
  }

  /** The values of a list of parse results, or `None` as soon as one of them failed. */
  function AllParsed(results: seq<Option<int>>): (r: Option<seq<int>>)
    ensures r.Some? ==> |r.value| == |results|
  {
    if results == [] then Some([])
    else
      match results[0]
      case None => None
      case Some(x) =>
        match AllParsed(results[1..])
        case None => None
        case Some(xs) => Some([x] + xs)
  }

  /** The results combine exactly when every one succeeded, and then value by value. */
  lemma {:induction false} AllParsedMeaning(results: seq<Option<int>>)
    ensures AllParsed(results).Some? <==> forall i :: 0 <= i < |results| ==> results[i].Some?
    ensures AllParsed(results).Some? ==> forall i :: 0 <= i < |results| ==> results[i] == Some(AllParsed(results).value[i])
  {
    if results != [] {
      var tail := results[1..];
      AllParsedMeaning(tail);
      assert forall i :: 1 <= i < |results| ==> results[i] == tail[i - 1];
      if AllParsed(results).Some? {
        var xs := AllParsed(tail).value;
        assert AllParsed(results).value == [results[0].value] + xs;
      }
    }
  }

  /** The parts parse exactly when every piece does, and then piece by piece. */
  lemma ParsePartsMeaning(parts: seq<string>)
    ensures ParseParts(parts).Some? <==> forall i :: 0 <= i < |parts| ==> ParseInt(parts[i]).Some?
    ensures ParseParts(parts).Some? ==> forall i :: 0 <= i < |parts| ==> ParseInt(parts[i]) == Some(ParseParts(parts).value[i])
  {
    var results := seq(|parts|, i requires 0 <= i < |parts| => ParseInt(parts[i]));
    AllParsedMeaning(results);
    forall i | 0 <= i < |parts|
      ensures results[i] == ParseInt(parts[i])
    {
    }
  }

  /** The component list after the padding loop: zeros appended until there are three. */
  function Padded(xs: seq<int>): (r: seq<int>)
    decreases 3 - |xs|
    ensures |r| == if |xs| < 3 then 3 else |xs|
    ensures r[..|xs|] == xs
    ensures forall i :: |xs| <= i < |r| ==> r[i] == 0
  {
    if |xs| < 3 then Padded(xs + [0]) else xs
  }

  /** Python's `a < b` on two lists of integers: the first difference decides, else the shorter is smaller. */
  predicate LexLess(a: seq<int>, b: seq<int>) {
    if a == [] then b != []
    else if b == [] then false
    else if a[0] != b[0] then a[0] < b[0]
    else LexLess(a[1..], b[1..])
  }

  /** `_is_newer(current, latest)`: both parse as dotted integers and `latest` is larger after padding. */
  predicate Newer(current: string, latest: string)
    ensures Newer(current, latest) ==> ParseParts(Split(current, '.')).Some? && ParseParts(Split(latest, '.')).Some?
  {
    match (ParseParts(Split(current, '.')), ParseParts(Split(latest, '.')))
    case (Some(c), Some(l)) => LexLess(Padded(c), Padded(l))
    case _ => false
  }

  /** `UpdateChecker._is_newer`, with its two padding loops. */
  method IsNewer(current: string, latest: string) returns (newer: bool)
    ensures newer == Newer(current, latest)
  {
    var cParsed := ParseParts(Split(current, '.'));
    var lParsed := ParseParts(Split(latest, '.'));
    if cParsed.None? || lParsed.None? {
      return false;
    }
    var c := PadToThree(cParsed.value);
    var l := PadToThree(lParsed.value);
    newer := LexLess(c, l);
  }

  /** The padding loop of `_is_newer`: append zeros until the list has three parts. */
  method PadToThree(xs: seq<int>) returns (ys: seq<int>)
    ensures ys == Padded(xs)
  {
    ys := xs;
    while |ys| < 3
      invariant |xs| <= |ys| <= (if |xs| < 3 then 3 else |xs|)
      invariant ys[..|xs|] == xs
      invariant forall i :: |xs| <= i < |ys| ==> ys[i] == 0
      decreases 3 - |ys|
    {
      ys := ys + [0];
    }
    SamePadding(xs, ys);
  }

  /** A list holding `xs` followed by zeros up to the padded length is the padded list. */
  lemma SamePadding(xs: seq<int>, ys: seq<int>)
    requires |ys| == if |xs| < 3 then 3 else |xs|
    requires ys[..|xs|] == xs
    requires forall i :: |xs| <= i < |ys| ==> ys[i] == 0
    ensures ys == Padded(xs)
  {
    var p := Padded(xs);
    forall i | 0 <= i < |ys| ensures ys[i] == p[i] {
      if i < |xs| {
        assert ys[i] == ys[..|xs|][i] && p[i] == p[..|xs|][i];
      }
    }
  }

  lemma {:induction false} LexLessIrreflexive(a: seq<int>)
    ensures !LexLess(a, a)
  {
    if a != [] {
      LexLessIrreflexive(a[1..]);
    }
  }

  lemma {:induction false} LexLessAsymmetric(a: seq<int>, b: seq<int>)
    ensures !(LexLess(a, b) && LexLess(b, a))
  {
    if a != [] && b != [] && a[0] == b[0] {
      LexLessAsymmetric(a[1..], b[1..]);
    }
  }

  lemma {:induction false} LexLessTransitive(a: seq<int>, b: seq<int>, c: seq<int>)
    requires LexLess(a, b) && LexLess(b, c)
    ensures LexLess(a, c)
  {
    if a != [] && b != [] && c != [] && a[0] == b[0] && b[0] == c[0] {
      LexLessTransitive(a[1..], b[1..], c[1..]);
    }
  }

  /** No version is newer than itself. */
  lemma NewerIrreflexive(v: string)
    ensures !Newer(v, v)
  {
    var parsed := ParseParts(Split(v, '.'));
    if parsed.Some? {
      LexLessIrreflexive(Padded(parsed.value));
    }
  }

  /** Two versions are never each newer than the other. */
  lemma NewerAsymmetric(a: string, b: string)
    ensures !(Newer(a, b) && Newer(b, a))
  {
    var pa := ParseParts(Split(a, '.'));
    var pb := ParseParts(Split(b, '.'));
    if pa.Some? && pb.Some? {
      LexLessAsymmetric(Padded(pa.value), Padded(pb.value));
    }
  }

  lemma NewerTransitive(a: string, b: string, c: string)
    requires Newer(a, b) && Newer(b, c)
    ensures Newer(a, c)
  {
    var pa := ParseParts(Split(a, '.'));
    var pb := ParseParts(Split(b, '.'));
    var pc := ParseParts(Split(c, '.'));
    LexLessTransitive(Padded(pa.value), Padded(pb.value), Padded(pc.value));
  }

  /** A version missing trailing components compares equal to one spelling them as zeros. */
  lemma PaddingMakesEqual(xs: seq<int>)
    requires |xs| < 3
    ensures Padded(xs) == Padded(xs + [0])
  {
  }

  /** "1.0" and "1.0.0" are the same release: neither is newer than the other. */
  lemma ShortVersionNotNewer()
    ensures !Newer("1.0", "1.0.0") && !Newer("1.0.0", "1.0")
  {
    var a, b := "1.0", "1.0.0";
    ShortVersionParts();
    OneZeroAppended();
    TrailingZeroNotNewer(a, b, [1, 0]);
  }

  lemma OneZeroAppended()
    ensures [1, 0] + [0] == [1, 0, 0]
  {
  }

  /** Two versions whose parts differ only by one trailing zero, within three parts, are equally new. */
  lemma TrailingZeroNotNewer(a: string, b: string, xs: seq<int>)
    requires |xs| < 3
    requires ParseParts(Split(a, '.')) == Some(xs) && ParseParts(Split(b, '.')) == Some(xs + [0])
    ensures !Newer(a, b) && !Newer(b, a)
  {
    PaddingMakesEqual(xs);
    LexLessIrreflexive(Padded(xs));
  }

  lemma ShortVersionParts()
    ensures ParseParts(Split("1.0", '.')) == Some([1, 0])
    ensures ParseParts(Split("1.0.0", '.')) == Some([1, 0, 0])
  {
    ShortVersionSplits();
    OneZeroParts();
  }

  /** The parts "1", "0" and "1", "0", "0" parse to the integers 1, 0 and 1, 0, 0. */
  lemma OneZeroParts()
    ensures ParseParts(["1", "0"]) == Some([1, 0])
    ensures ParseParts(["1", "0", "0"]) == Some([1, 0, 0])
  {
    OneAndZero();
    ParsePartsOfValues(["1", "0"], [1, 0]);
    ParsePartsOfValues(["1", "0", "0"], [1, 0, 0]);
  }

  /** Pieces that each parse to a known value parse, as a list, to those values. */
  lemma ParsePartsOfValues(parts: seq<string>, values: seq<int>)
    requires |parts| == |values|
    requires forall i :: 0 <= i < |parts| ==> ParseInt(parts[i]) == Some(values[i])
    ensures ParseParts(parts) == Some(values)
  {
    ParsePartsMeaning(parts);
    assert ParseParts(parts).value == values;
  }

  lemma ShortVersionSplits()
    ensures Split("1.0", '.') == ["1", "0"]
    ensures Split("1.0.0", '.') == ["1", "0", "0"]
  {
    SplitPiece("0", "", '.');
    SplitPiece("1", "0", '.');
    SplitPiece("0", "0", '.');
    SplitPiece("1", "0.0", '.');
    assert "1" + "." + "0" == "1.0" && "0" + "." + "0" == "0.0" && "1" + "." + "0.0" == "1.0.0";
  }

  lemma OneAndZero()
    ensures ParseInt("0") == Some(0) && ParseInt("1") == Some(1)
  {
    ParseIntOfIntToString(0);
    ParseIntOfIntToString(1);
    assert IntToString(0) == "0" && IntToString(1) == "1";
  }

  /** A component `int()` rejects, as an empty release tag has, makes the answer False. */
  lemma UnparsableNeverNewer(current: string, latest: string)
    requires ParseParts(Split(current, '.')).None? || ParseParts(Split(latest, '.')).None?
    ensures !Newer(current, latest)
  {
  }

  /** An empty release tag is never newer. */
  lemma EmptyTagNeverNewer(current: string)
    ensures !Newer(current, "")
  {
    assert Split("", '.') == [""];
    EmptyAndNotAvailableAreNotNumbers();
    ParsePartsMeaning([""]);
  }
}
