/** The lecture reference that chat_api looks for in the backend's answer:
    the first `参考箇所: [M:SS-M:SS]` tag, each time converted to seconds. */
module ReferenceTag {
  import opened Common
  import opened Decimal

  /** The literal text in front of the two times. */
  const Prefix: string := "参考箇所: ["

  /** A time as the pattern `\d{1,2}:\d{2}` accepts it: one or two minute digits,
      a colon, exactly two second digits. */
  predicate IsClock(t: string) {
    (|t| == 4 || |t| == 5) && t[|t| - 3] == ':' && AllDigits(t[..|t| - 3]) && AllDigits(t[|t| - 2..])
  }

  function MinutesField(t: string): string
    requires IsClock(t)
  {
    t[..|t| - 3]
  }

  function SecondsField(t: string): string
    requires IsClock(t)
  {
    t[|t| - 2..]
  }

  /** A whole reference tag whose two times are `first` and `second`. */
  predicate IsTag(t: string, first: string, second: string) {
    IsClock(first) && IsClock(second) && t == Prefix + first + "-" + second + "]"
  }

  // ---------------------------------------------------------------------------
  // time_to_seconds: `minutes, seconds = map(int, time_str.split(':'))`

  /** The index of the first occurrence of `c` in `s`. */
  function IndexOf(s: string, c: char): (k: nat)
    requires c in s
    ensures k < |s| && s[k] == c && c !in s[..k]
  {
    if s[0] == c then 0
    else
      var k := 1 + IndexOf(s[1..], c);
      assert s[..k] == [s[0]] + s[1..][..k - 1];
      k
  }

  /** The pieces between the separators, joined back by them. */
  function Join(parts: seq<string>, sep: char): string
    requires |parts| >= 1
  {
    if |parts| == 1 then parts[0] else parts[0] + [sep] + Join(parts[1..], sep)
  }

  /** Python's `s.split(sep)` for a one-character separator: the pieces contain no
      separator and, joined back with it, give `s`. */
  function Split(s: string, sep: char): (parts: seq<string>)
    ensures |parts| >= 1
    ensures forall k :: 0 <= k < |parts| ==> sep !in parts[k]
    ensures Join(parts, sep) == s
    decreases |s|
  {
    if sep !in s then [s]
    else
      var k := IndexOf(s, sep);
      var rest := Split(s[k + 1..], sep);
      var parts := [s[..k]] + rest;
      assert parts[1..] == rest;
      assert s == s[..k] + [sep] + s[k + 1..];
      parts
  }

  /** A time of the matched form splits into exactly its minute and second fields. */
  lemma ClockSplit(t: string)
    requires IsClock(t)
    ensures Split(t, ':') == [MinutesField(t), SecondsField(t)]
  {
    var c := |t| - 3;
    assert t[c] == ':';
    var k := IndexOf(t, ':');
    assert k == c;
    var sec := t[k + 1..];
    assert sec == SecondsField(t);
    assert ':' !in sec by {
      forall j | 0 <= j < |sec| ensures sec[j] != ':' { assert IsDigit(sec[j]); }
    }
    assert Split(sec, ':') == [sec];
  }

  /** `time_to_seconds`: minutes times sixty plus seconds, the seconds field unchecked. */
  function TimeToSeconds(t: string): (r: nat)
    requires IsClock(t)
    ensures r == DigitsValue(MinutesField(t)) * 60 + DigitsValue(SecondsField(t))
    ensures r <= 99 * 60 + 99
  {
    ClockSplit(t);
    var parts := Split(t, ':');
    var m := DigitsValue(parts[0]);
    var s := DigitsValue(parts[1]);
    assert Pow10(1) == 10 && Pow10(2) == 100;
    assert m <= 99 && s <= 99;
    m * 60 + s
  }

  // ---------------------------------------------------------------------------
  // re.search(r'参考箇所: \[(\d{1,2}:\d{2})-(\d{1,2}:\d{2})\]', response_text)

  /** A successful match: where it starts and ends, and its two groups. */
  datatype TagMatch = TagMatch(start: nat, end: nat, first: string, second: string)

  /** `:\d{2}` at position `k`: the position after it. */
  function ColonSecondsAt(s: string, k: nat): Option<nat> {
    if k + 3 <= |s| && s[k] == ':' && IsDigit(s[k + 1]) && IsDigit(s[k + 2]) then Some(k + 3) else None
  }

  /** `\d{1,2}:\d{2}` at position `i`. The greedy quantifier tries two minute digits
      before one; the match, when there is one, is the only clock starting at `i`. */
  function ClockAt(s: string, i: nat): (r: Option<nat>)
    ensures r.Some? ==> i < r.value <= |s| && IsClock(s[i..r.value])
  {
    if i + 2 <= |s| && IsDigit(s[i]) && IsDigit(s[i + 1]) && ColonSecondsAt(s, i + 2).Some? then
      ColonSecondsAt(s, i + 2)
    else if i + 1 <= |s| && IsDigit(s[i]) then
      ColonSecondsAt(s, i + 1)
    else
      None
  }

  /** Any clock that starts at `i` is the one ClockAt finds. */
  lemma ClockAtComplete(s: string, i: nat, j: nat)
    requires i <= j <= |s| && IsClock(s[i..j])
    ensures ClockAt(s, i) == Some(j)
  {
    var t := s[i..j];
    if |t| == 4 {
      assert s[i] == t[0] && s[i + 1] == t[1] && s[i + 2] == t[2] && s[i + 3] == t[3];
      assert IsDigit(t[..1][0]) && IsDigit(t[2..][0]) && IsDigit(t[2..][1]);
    } else {
      assert s[i] == t[0] && s[i + 1] == t[1] && s[i + 2] == t[2] && s[i + 3] == t[3] && s[i + 4] == t[4];
      assert IsDigit(t[..2][0]) && IsDigit(t[..2][1]) && IsDigit(t[3..][0]) && IsDigit(t[3..][1]);
    }
  }

  /** The pattern anchored at position `i`. A match covers a whole tag whose groups
      are the two times. */
  function MatchAt(s: string, i: nat): (r: Option<TagMatch>)
    ensures r.Some? ==> r.value.start == i && i <= r.value.end <= |s|
    ensures r.Some? ==> IsTag(s[i..r.value.end], r.value.first, r.value.second)
  {
    var p := i + |Prefix|;
    if p <= |s| && s[i..p] == Prefix then
      match ClockAt(s, p)
      case None => None
      case Some(a) =>
        if a < |s| && s[a] == '-' then
          match ClockAt(s, a + 1)
          case None => None
          case Some(b) =>
            if b < |s| && s[b] == ']' then
              TagSlices(s, i, p, a, b);
              Some(TagMatch(i, b + 1, s[p..a], s[a + 1..b]))
            else None
        else None
    else None
  }

  /** Every tag in the exact form is matched where it starts, with its own two times:
      together with MatchAt's contract, a tag is recognised exactly when it has this form. */
  lemma MatchAtComplete(s: string, i: nat, j: nat, first: string, second: string)
    requires i <= j <= |s| && IsTag(s[i..j], first, second)
    ensures MatchAt(s, i) == Some(TagMatch(i, j, first, second))
  {
    TagLayout(s, i, j, first, second);
  }

  /** Where the pieces of a tag at `i..j` lie in `s`, and what ClockAt finds there. */
  lemma TagLayout(s: string, i: nat, j: nat, first: string, second: string)
    requires i <= j <= |s| && IsTag(s[i..j], first, second)
    ensures i + |Prefix| + |first| + 1 < j
    ensures s[i..i + |Prefix|] == Prefix
    ensures ClockAt(s, i + |Prefix|) == Some(i + |Prefix| + |first|)
    ensures s[i + |Prefix|..i + |Prefix| + |first|] == first
    ensures s[i + |Prefix| + |first|] == '-'
    ensures ClockAt(s, i + |Prefix| + |first| + 1) == Some(j - 1)
    ensures s[i + |Prefix| + |first| + 1..j - 1] == second
    ensures s[j - 1] == ']'
  {
    var t := s[i..j];
    var n, f := |Prefix|, |first|;
    TagParts(t, first, second);
    var p, a, b := i + n, i + n + f, j - 1;
    SliceOfSlice(s, i, j, 0, n);
    SliceOfSlice(s, i, j, n, n + f);
    ClockAtComplete(s, p, a);
    assert s[a] == t[n + f];
    SliceOfSlice(s, i, j, n + f + 1, |t| - 1);
    ClockAtComplete(s, a + 1, b);
    assert s[b] == t[|t| - 1];
  }

  /** A span cut at the dash and the closing bracket. */
  lemma TagSlices(s: string, i: nat, p: nat, a: nat, b: nat)
    requires i <= p <= a < b < |s| && s[a] == '-' && s[b] == ']'
    ensures s[i..b + 1] == s[i..p] + s[p..a] + "-" + s[a + 1..b] + "]"
  {
    var t := s[i..p] + s[p..a] + "-" + s[a + 1..b] + "]";
    assert |t| == b + 1 - i;
    forall k | 0 <= k < |t| ensures t[k] == s[i + k] {
      if k < p - i {
      } else if k < a - i {
      } else if k == a - i {
      } else if k < b - i {
      } else {
      }
    }
  }

  lemma SliceOfSlice(s: string, i: nat, j: nat, lo: nat, hi: nat)
    requires i <= j <= |s| && lo <= hi <= j - i
    ensures s[i..j][lo..hi] == s[i + lo..i + hi]
  {
    assert forall k :: 0 <= k < hi - lo ==> s[i..j][lo..hi][k] == s[i + lo + k];
  }

  /** Where the pieces of a tag lie. */
  lemma TagParts(t: string, first: string, second: string)
    requires IsTag(t, first, second)
    ensures |t| == |Prefix| + |first| + |second| + 2
    ensures t[..|Prefix|] == Prefix && t[|Prefix|..|Prefix| + |first|] == first
    ensures t[|Prefix| + |first|] == '-' && t[|Prefix| + |first| + 1..|t| - 1] == second
    ensures t[|t| - 1] == ']'
  {
    var head := Prefix + first + "-";
    assert t == head + second + "]";
    assert t[..|head|] == head;
    assert head[..|Prefix|] == Prefix && head[|Prefix|..|Prefix| + |first|] == first;
  }

  /** `re.search`: the leftmost position from `from` on at which the pattern matches. */
  function Search(s: string, from: nat): (r: Option<TagMatch>)
    ensures r.Some? ==> from <= r.value.start <= |s| && MatchAt(s, r.value.start) == r
    ensures r.Some? ==> forall i :: from <= i < r.value.start ==> MatchAt(s, i).None?
    ensures r.None? ==> forall i :: from <= i <= |s| ==> MatchAt(s, i).None?
    decreases |s| + 1 - from
  {
    if from > |s| then None
    else
      match MatchAt(s, from)
      case Some(m) => Some(m)
      case None => Search(s, from + 1)
  }

  /** The start and end times, in seconds, that chat_api reports for an answer:
      those of the leftmost tag, or nothing when the answer has none. */
  function Reference(text: string): (r: Option<(nat, nat)>)
    ensures r.Some? ==> r.value.0 <= 99 * 60 + 99 && r.value.1 <= 99 * 60 + 99
  {
    match Search(text, 0)
    case None => None
    case Some(m) => Some((TimeToSeconds(m.first), TimeToSeconds(m.second)))
  }

  /** An answer reports no times exactly when the pattern matches at no position. */
  lemma ReferenceAbsent(text: string)
    ensures Reference(text).None? <==> forall i :: 0 <= i <= |text| ==> MatchAt(text, i).None?
  {
    var r := Search(text, 0);
    if r.Some? {
      assert MatchAt(text, r.value.start).Some?;
    }
  }

  /** The leftmost tag decides: when no tag in the exact form starts before position `i`,
      the tag at `i` gives the reference, whatever follows it. */
  lemma ReferenceIsLeftmost(text: string, i: nat, j: nat, first: string, second: string)
    requires i <= j <= |text| && IsTag(text[i..j], first, second)
    requires forall k, l, f, g :: 0 <= k < i && k <= l <= |text| ==> !IsTag(text[k..l], f, g)
    ensures Reference(text) == Some((TimeToSeconds(first), TimeToSeconds(second)))
  {
    MatchAtComplete(text, i, j, first, second);
    var r := Search(text, 0);
    assert r.Some?;
    assert r.value.start == i;
  }

  /** An answer that opens with a tag refers to that tag's times, even when later
      tags follow. */
  lemma LeadingTagDecides(first: string, second: string, rest: string)
    requires IsClock(first) && IsClock(second)
    ensures Reference(Prefix + first + "-" + second + "]" + rest)
         == Some((TimeToSeconds(first), TimeToSeconds(second)))
  {
    var tag := Prefix + first + "-" + second + "]";
    var text := tag + rest;
    assert text[0..|tag|] == tag;
    ReferenceIsLeftmost(text, 0, |tag|, first, second);
  }

  /** The two times of the example below, read as time_to_seconds reads them. */
  lemma ExampleTimes()
    ensures IsClock("0:75") && IsClock("0:10")
    ensures TimeToSeconds("0:75") == 75 && TimeToSeconds("0:10") == 10
  {
    assert MinutesField("0:75") == "0" && SecondsField("0:75") == "75";
    assert MinutesField("0:10") == "0" && SecondsField("0:10") == "10";
    assert "75"[..1] == "7" && "10"[..1] == "1";
  }

  /** No range check on the values: a seconds field of 75 is read as 75 seconds, and a
      start after the end is reported as it is. */
  lemma NoValidation()
    ensures Reference(Prefix + "0:75" + "-" + "0:10" + "]") == Some((75, 10))
  {
    ExampleTimes();
    LeadingTagDecides("0:75", "0:10", "");
    assert Prefix + "0:75" + "-" + "0:10" + "]" + "" == Prefix + "0:75" + "-" + "0:10" + "]";
  }
}
