/**
 * The memory-slot part of the RAM tile: `dmidecode -t memory` output is cut at every
 * "Memory Device" header, and each chunk after the first gives one slot whose fields are read
 * with the regular expressions `L:\s*(.+)` and `Speed:\s*(\d+)\s*MHz`. The first slot also gives
 * the tile's manufacturer, type and speed.
 *
 * The searches follow Python's `re.search` exactly: the leftmost position where the whole
 * pattern matches; `\s` is `str.isspace`, `.` is any character but '\n', and a greedy `\s*`
 * gives characters back only when nothing follows it.
 */
module DiagRam {
  import opened Wrappers
  import opened PyStr

  const NA: string := "N/A"
  const DeviceMarker: string := "Memory Device"
  const ManufacturerLabel: string := "Manufacturer:"
  const PartNumberLabel: string := "Part Number:"
  const SpeedLabel: string := "Speed:"
  const TypeLabel: string := "Type:"
  const SizeLabel: string := "Size:"
  const MHz: string := "MHz"
  const MHzSuffix: string := " MHz"

  /** Where the run of whitespace starting at `i` ends: what a greedy `\s*` at `i` takes. */
  function SpaceEnd(s: string, i: nat): (e: nat)
    requires i <= |s|
    ensures i <= e <= |s|
    ensures forall k :: i <= k < e ==> IsSpace(s[k])
    ensures e < |s| ==> !IsSpace(s[e])
    decreases |s| - i
  {
    if i < |s| && IsSpace(s[i]) then SpaceEnd(s, i + 1) else i
  }

  /** Where the run of ASCII digits starting at `i` ends: what a greedy `\d+` at `i` takes. */
  function DigitEnd(s: string, i: nat): (e: nat)
    requires i <= |s|
    ensures i <= e <= |s|
    ensures forall k :: i <= k < e ==> IsDigit(s[k])
    ensures e < |s| ==> !IsDigit(s[e])
    decreases |s| - i
  {
    if i < |s| && IsDigit(s[i]) then DigitEnd(s, i + 1) else i
  }

  /** Where a greedy `.*` starting at `i` stops: the first '\n' from `i` on, or the end. */
  function LineEnd(s: string, i: nat): (e: nat)
    requires i <= |s|
    ensures i <= e <= |s|
    ensures forall k :: i <= k < e ==> s[k] != '\n'
    ensures e < |s| ==> s[e] == '\n'
    decreases |s| - i
  {
    if i < |s| && s[i] != '\n' then LineEnd(s, i + 1) else i
  }

  /** The last index at or after `i` that holds something other than '\n', or -1. */
  function LastNotNewline(s: string, i: nat): (j: int)
    requires i <= |s|
    ensures j == -1 || i <= j < |s|
    ensures j >= 0 ==> s[j] != '\n' && forall k :: j < k < |s| ==> s[k] == '\n'
    ensures j == -1 ==> forall k :: i <= k < |s| ==> s[k] == '\n'
  {
    LastNotNewlineBelow(s, i, |s|)
  }

  /** The last index in `[i, e)` that holds something other than '\n', or -1. */
  function LastNotNewlineBelow(s: string, i: nat, e: nat): (j: int)
    requires i <= e <= |s|
    ensures j == -1 || i <= j < e
    ensures j >= 0 ==> s[j] != '\n' && forall k :: j < k < e ==> s[k] == '\n'
    ensures j == -1 ==> forall k :: i <= k < e ==> s[k] == '\n'
    decreases e - i
  {
    if e == i then -1
    else if s[e - 1] != '\n' then e - 1
    else LastNotNewlineBelow(s, i, e - 1)
  }

  /** The two patterns that follow a name. */
  datatype Capture =
    | TextCapture   // `\s*(.+)`
    | MHzCapture    // `\s*(\d+)\s*MHz`

  /**
   * The group captured when the part of the pattern after the name is matched at `q`, or
   * `None` when it does not match there.
   *
   * For `\s*(.+)`: the greedy `\s*` may run over line breaks; when it reaches the end of the
   * text it gives back characters until `.+` can start at a character other than '\n'.
   * For `\s*(\d+)\s*MHz` no character given back can help, so the greedy runs decide.
   */
  function CaptureAt(s: string, q: nat, c: Capture): Option<string>
    requires q <= |s|
  {
    match c
    case TextCapture =>
      var e := SpaceEnd(s, q);
      if e < |s| then Some(s[e..LineEnd(s, e)])
      else
        var j := LastNotNewline(s, q);
        if j < 0 then None else Some(s[j..LineEnd(s, j)])
    case MHzCapture =>
      var d := SpaceEnd(s, q);
      var e := DigitEnd(s, d);
      if d < e && IsAt(s, MHz, SpaceEnd(s, e)) then Some(s[d..e]) else None
  }

  /** The whole pattern, name then capture, matches at `p`. */
  predicate MatchAt(s: string, name: string, c: Capture, p: int) {
    IsAt(s, name, p) && CaptureAt(s, p + |name|, c).Some?
  }

  /** `re.search(name + pattern, s)` from index `from` on, giving the captured group. */
  function Search(s: string, name: string, c: Capture, from: nat): Option<string>
    decreases |s| - from
  {
    if from + |name| > |s| then None
    else if MatchAt(s, name, c, from) then CaptureAt(s, from + |name|, c)
    else Search(s, name, c, from + 1)
  }

  /** The search is leftmost: it returns the group of the first position where the pattern matches. */
  lemma {:induction false} SearchLeftmost(s: string, name: string, c: Capture, from: nat, p: nat)
    requires from <= p && MatchAt(s, name, c, p)
    requires forall k :: from <= k < p ==> !MatchAt(s, name, c, k)
    ensures Search(s, name, c, from) == CaptureAt(s, p + |name|, c)
    decreases p - from
  {
    if from < p {
      SearchLeftmost(s, name, c, from + 1, p);
    }
  }

  /** The search finds nothing exactly when the pattern matches at no position. */
  lemma {:induction false} SearchNone(s: string, name: string, c: Capture, from: nat)
    ensures Search(s, name, c, from).None? <==> forall k :: from <= k ==> !MatchAt(s, name, c, k)
    decreases |s| - from
  {
    if from + |name| <= |s| && !MatchAt(s, name, c, from) {
      SearchNone(s, name, c, from + 1);
      forall k | from <= k
        ensures Search(s, name, c, from).None? ==> !MatchAt(s, name, c, k)
      {
        if k > from {
        }
      }
    }
  }

  /** A group the search returns was captured at some position where the pattern matches. */
  lemma {:induction false} SearchSome(s: string, name: string, c: Capture, from: nat)
    requires Search(s, name, c, from).Some?
    ensures exists p :: from <= p && MatchAt(s, name, c, p)
                     && Search(s, name, c, from) == CaptureAt(s, p + |name|, c)
    decreases |s| - from
  {
    if !MatchAt(s, name, c, from) {
      SearchSome(s, name, c, from + 1);
    }
  }

  /** `m.group(1).strip() if m else "N/A"` for `L:\s*(.+)`. */
  function Field(dev: string, name: string): string {
    match Search(dev, name, TextCapture, 0)
    case Some(g) => Strip(g)
    case None => NA
  }

  /** `(m.group(1) + " MHz") if m else "N/A"` for `Speed:\s*(\d+)\s*MHz`. */
  function SpeedField(dev: string): string {
    match Search(dev, SpeedLabel, MHzCapture, 0)
    case Some(d) => d + MHzSuffix
    case None => NA
  }

  /** One memory slot. */
  datatype Slot = Slot(manufacturer: string, partNumber: string, speed: string, memoryType: string, size: string)

  /** The slot read from one "Memory Device" chunk. */
  function ParseSlot(dev: string): Slot {
    Slot(Field(dev, ManufacturerLabel), Field(dev, PartNumberLabel), SpeedField(dev),
         Field(dev, TypeLabel), Field(dev, SizeLabel))
  }

  /** The detailed part of the RAM dictionary (the `psutil` totals are not part of this model). */
  datatype RamDetail = RamDetail(manufacturer: string, partNumber: string, memoryType: string,
                                 speed: string, maxSpeed: string, slots: seq<Slot>)

  /** The slots of the chunks `devs`, one per chunk, in order. */
  function SlotsOf(devs: seq<string>): seq<Slot> {
    if devs == [] then [] else SlotsOf(devs[..|devs| - 1]) + [ParseSlot(devs[|devs| - 1])]
  }

  /** `SlotsOf` parses each chunk on its own. */
  lemma {:induction false} SlotsOfEach(devs: seq<string>)
    ensures |SlotsOf(devs)| == |devs|
    ensures forall i :: 0 <= i < |devs| ==> SlotsOf(devs)[i] == ParseSlot(devs[i])
  {
    if devs != [] {
      var init := devs[..|devs| - 1];
      SlotsOfEach(init);
      assert forall i :: 0 <= i < |init| ==> devs[i] == init[i];
    }
  }

  /** The loop over `parts[1:]`: one slot per chunk, in order. */
  method ParseSlots(devs: seq<string>) returns (slots: seq<Slot>)
    ensures |slots| == |devs|
    ensures forall i :: 0 <= i < |slots| ==> slots[i] == ParseSlot(devs[i])
  {
    slots := [];
    for i := 0 to |devs|
      invariant slots == SlotsOf(devs[..i])
    {
      assert devs[..i + 1][..i] == devs[..i];
      slots := slots + [ParseSlot(devs[i])];
    }
    assert devs[..|devs|] == devs;
    SlotsOfEach(devs);
  }

  /**
   * The slot part of `get_ram_info`; `dmidecode` is `None` when the tool is not installed.
   * The summary fields come from the first slot when there is one and stay "N/A" otherwise;
   * the part number and the maximum speed are never filled in.
   */
  method GetRamDetail(dmidecode: Option<string>) returns (r: RamDetail)
    ensures r.partNumber == NA && r.maxSpeed == NA
    ensures dmidecode.None? ==> r.slots == []
    ensures dmidecode.Some? ==> var parts := SplitOn(dmidecode.value, DeviceMarker);
      && |r.slots| == |parts| - 1
      && forall i :: 0 <= i < |r.slots| ==> r.slots[i] == ParseSlot(parts[i + 1])
    ensures r.slots == [] ==> r.manufacturer == NA && r.memoryType == NA && r.speed == NA
    ensures r.slots != [] ==>
      && r.manufacturer == r.slots[0].manufacturer
      && r.memoryType == r.slots[0].memoryType
      && r.speed == r.slots[0].speed
  {
    r := RamDetail(NA, NA, NA, NA, NA, []);
    if dmidecode.Some? {
      var parts := SplitOn(dmidecode.value, DeviceMarker);
      var slots := ParseSlots(parts[1..]);
      if slots != [] {
        r := r.(slots := slots, manufacturer := slots[0].manufacturer,
                memoryType := slots[0].memoryType, speed := slots[0].speed);
      }
    }
  }

  /** A name whose first character is not whitespace and does not recur in it. */
  predicate StartsOnce(name: string) {
    |name| > 0 && name[0] !in name[1..] && !IsSpace(name[0])
  }

  lemma {:induction false} LabelsStartOnce()
    ensures StartsOnce(DeviceMarker) && StartsOnce(ManufacturerLabel) && StartsOnce(PartNumberLabel)
    ensures StartsOnce(SpeedLabel) && StartsOnce(TypeLabel) && StartsOnce(SizeLabel)
  {
  }

  /**
   * Output made of a preamble and device chunks joined by "Memory Device" headers, none of
   * them holding a header, splits back into exactly those chunks: one slot per device.
   */
  lemma {:induction false} ChunksOfDevices(head: string, devs: seq<string>)
    requires FindSub(head, DeviceMarker) == -1
    requires forall i :: 0 <= i < |devs| ==> FindSub(devs[i], DeviceMarker) == -1
    ensures SplitOn(Join(DeviceMarker, [head] + devs), DeviceMarker)[1..] == devs
  {
    LabelsStartOnce();
    var parts := [head] + devs;
    forall i | 0 <= i < |parts|
      ensures FindSub(parts[i], DeviceMarker) == -1
    {
      if i > 0 {
        assert parts[i] == devs[i - 1];
      }
    }
    SplitOnJoinUnique(DeviceMarker, parts);
  }

  /** A greedy `\s*` over a known run of whitespace stops right after it. */
  lemma {:induction false} SpaceEndAfter(s: string, i: nat, n: nat)
    requires i + n <= |s|
    requires forall k :: i <= k < i + n ==> IsSpace(s[k])
    requires i + n == |s| || !IsSpace(s[i + n])
    ensures SpaceEnd(s, i) == i + n
    decreases n
  {
    if n > 0 {
      SpaceEndAfter(s, i + 1, n - 1);
    }
  }

  /** A greedy `.*` over a known stretch without '\n' stops right after it. */
  lemma {:induction false} LineEndAfter(s: string, i: nat, n: nat)
    requires i + n <= |s|
    requires forall k :: i <= k < i + n ==> s[k] != '\n'
    requires i + n == |s| || s[i + n] == '\n'
    ensures LineEnd(s, i) == i + n
    decreases n
  {
    if n > 0 {
      LineEndAfter(s, i + 1, n - 1);
    }
  }

  /** A greedy `\d+` over a known run of digits stops right after it. */
  lemma {:induction false} DigitEndAfter(s: string, i: nat, n: nat)
    requires i + n <= |s|
    requires forall k :: i <= k < i + n ==> IsDigit(s[k])
    requires i + n == |s| || !IsDigit(s[i + n])
    ensures DigitEnd(s, i) == i + n
    decreases n
  {
    if n > 0 {
      DigitEndAfter(s, i + 1, n - 1);
    }
  }

  /** The search finds the first occurrence of a name that starts once, when it matches there. */
  lemma {:induction false} FirstMatch(pre: string, name: string, rest: string, c: Capture)
    requires StartsOnce(name) && FindSub(pre, name) == -1
    requires CaptureAt(pre + name + rest, |pre| + |name|, c).Some?
    ensures Search(pre + name + rest, name, c, 0) == CaptureAt(pre + name + rest, |pre| + |name|, c)
  {
    var s := pre + name + rest;
    OccursFirstAt(pre, name, rest);
    SearchSkip(s, name, c, 0, |pre|);
    assert MatchAt(s, name, c, |pre|);
  }

  /** The search skips positions where the name does not occur. */
  lemma {:induction false} SearchSkip(s: string, name: string, c: Capture, from: nat, p: nat)
    requires from <= p
    requires forall k :: from <= k < p ==> !IsAt(s, name, k)
    ensures Search(s, name, c, from) == Search(s, name, c, p)
    decreases p - from
  {
    if from < p {
      SearchSkip(s, name, c, from + 1, p);
    }
  }

  /**
   * A field line reads back: after the first occurrence of the name and any whitespace (line
   * breaks included), the value up to the end of its line, stripped.
   */
  lemma {:induction false} FieldReadBack(pre: string, name: string, gap: string, v: string, post: string)
    requires StartsOnce(name) && FindSub(pre, name) == -1
    requires AllSpace(gap)
    requires v != [] && !IsSpace(v[0]) && '\n' !in v
    ensures Field(pre + name + gap + v + "\n" + post, name) == Strip(v)
  {
    var rest := gap + v + "\n" + post;
    var head := pre + name;
    var s := pre + name + gap + v + "\n" + post;
    assert s == head + rest;
    ValueAfterName(head, gap, v, post);
    assert |head| == |pre| + |name|;
    FirstMatch(pre, name, rest, TextCapture);
    FieldOfMatch(s, name, v);
  }

  /** A search that captures `g` gives the field `g` stripped. */
  lemma {:induction false} FieldOfMatch(dev: string, name: string, g: string)
    requires Search(dev, name, TextCapture, 0) == Some(g)
    ensures Field(dev, name) == Strip(g)
  {
  }

  /** `\s*(.+)` right after `head` captures the value that follows the whitespace. */
  lemma {:induction false} ValueAfterName(head: string, gap: string, v: string, post: string)
    requires AllSpace(gap)
    requires v != [] && !IsSpace(v[0]) && '\n' !in v
    ensures CaptureAt(head + (gap + v + "\n" + post), |head|, TextCapture) == Some(v)
  {
    var s := head + (gap + v + "\n" + post);
    TextLayout(s, head, gap, v, post);
    TextCaptureAfter(s, |head|, |head| + |gap|, |head| + |gap| + |v|);
  }

  /** Where the pieces of `s == head + gap + v + "\n" + post` sit. */
  lemma {:induction false} TextLayout(s: string, head: string, gap: string, v: string, post: string)
    requires s == head + (gap + v + "\n" + post)
    requires AllSpace(gap)
    requires v != [] && !IsSpace(v[0]) && '\n' !in v
    ensures |head| + |gap| + |v| < |s|
    ensures forall k :: |head| <= k < |head| + |gap| ==> IsSpace(s[k])
    ensures !IsSpace(s[|head| + |gap|])
    ensures forall k :: |head| + |gap| <= k < |head| + |gap| + |v| ==> s[k] != '\n'
    ensures s[|head| + |gap| + |v|] == '\n'
    ensures s[|head| + |gap|..|head| + |gap| + |v|] == v
  {
    var q, b := |head|, |head| + |gap|;
    var c := b + |v|;
    assert s[q..b] == gap && s[b..c] == v && s[c] == '\n';
    forall k | q <= k < b
      ensures IsSpace(s[k])
    {
      assert s[k] == gap[k - q];
    }
    forall k | b <= k < c
      ensures s[k] != '\n'
    {
      assert s[k] == v[k - b];
    }
    assert s[b] == v[0];
  }

  /** `\s*(.+)` at `q` over whitespace up to `b`, then a value up to the '\n' at `c`. */
  lemma {:induction false} TextCaptureAfter(s: string, q: nat, b: nat, c: nat)
    requires q <= b <= c < |s|
    requires forall k :: q <= k < b ==> IsSpace(s[k])
    requires !IsSpace(s[b])
    requires forall k :: b <= k < c ==> s[k] != '\n'
    requires s[c] == '\n'
    ensures CaptureAt(s, q, TextCapture) == Some(s[b..c])
  {
    SpaceEndAfter(s, q, b - q);
    LineEndAfter(s, b, c - b);
    TextCaptureIs(s, q, b, c);
  }

  /** `\s*(.+)` at `q`, when the whitespace run stops before the end, captures the rest of that line. */
  lemma {:induction false} TextCaptureIs(s: string, q: nat, b: nat, c: nat)
    requires q <= b < |s| && b <= c <= |s|
    requires SpaceEnd(s, q) == b && LineEnd(s, b) == c
    ensures CaptureAt(s, q, TextCapture) == Some(s[b..c])
  {
  }

  /** A name that does not occur leaves its field "N/A". */
  lemma {:induction false} FieldMissing(dev: string, name: string)
    requires |name| > 0 && FindSub(dev, name) == -1
    ensures Field(dev, name) == NA
  {
    SearchNone(dev, name, TextCapture, 0);
  }

  /**
   * A name that ends the text followed only by whitespace: the field is "N/A" when that
   * whitespace is all line breaks '\n', and empty when it holds any other whitespace character,
   * since `.+` then captures that one character.
   */
  lemma {:induction false} FieldAtEnd(pre: string, name: string, gap: string)
    requires StartsOnce(name) && FindSub(pre, name) == -1
    requires AllSpace(gap)
    ensures (forall k :: 0 <= k < |gap| ==> gap[k] == '\n') ==> Field(pre + name + gap, name) == NA
    ensures (exists k :: 0 <= k < |gap| && gap[k] != '\n') ==> Field(pre + name + gap, name) == ""
  {
    var s := pre + name + gap;
    var q := |pre| + |name|;
    EndLayout(pre, name, gap);
    var j := LastNotNewline(s, q);
    if j >= 0 {
      assert gap[j - q] == s[j] != '\n';
      LastCharLine(s, j);
      StripOneSpace(s[j]);
      FirstMatch(pre, name, gap, TextCapture);
      assert Search(s, name, TextCapture, 0) == Some([s[j]]);
    } else {
      assert forall k :: 0 <= k < |gap| ==> gap[k] == s[q + k];
      AfterNameNoMatch(pre, name, gap);
      SearchNone(s, name, TextCapture, 0);
    }
  }

  /** Where the gap sits in `pre + name + gap`: whitespace to the end, which a greedy `\s*` takes whole. */
  lemma {:induction false} EndLayout(pre: string, name: string, gap: string)
    requires AllSpace(gap)
    ensures var s := pre + name + gap; var q := |pre| + |name|;
      && q + |gap| == |s|
      && (forall k :: q <= k < |s| ==> s[k] == gap[k - q])
      && SpaceEnd(s, q) == |s|
  {
    var s := pre + name + gap;
    var q := |pre| + |name|;
    assert forall k :: q <= k < |s| ==> s[k] == gap[k - q];
    SpaceEndAfter(s, q, |gap|);
  }

  /** `.+` at the last character that is not '\n' takes just that character. */
  lemma {:induction false} LastCharLine(s: string, j: nat)
    requires j < |s| && s[j] != '\n'
    requires forall k :: j < k < |s| ==> s[k] == '\n'
    ensures LineEnd(s, j) == j + 1 && s[j..LineEnd(s, j)] == [s[j]]
  {
    LineEndAfter(s, j, 1);
  }

  /** A single whitespace character strips to nothing. */
  lemma {:induction false} StripOneSpace(c: char)
    requires IsSpace(c)
    ensures Strip([c]) == []
  {
    assert AllSpace([c]);
  }

  /** Only the first occurrence can match when the name is followed by whitespace alone. */
  lemma {:induction false} AfterNameNoMatch(pre: string, name: string, gap: string)
    requires StartsOnce(name) && FindSub(pre, name) == -1
    requires AllSpace(gap)
    requires CaptureAt(pre + name + gap, |pre| + |name|, TextCapture).None?
    ensures forall k :: 0 <= k ==> !MatchAt(pre + name + gap, name, TextCapture, k)
  {
    var s := pre + name + gap;
    var q := |pre| + |name|;
    OccursFirstAt(pre, name, gap);
    forall k | |pre| < k && k + |name| <= |s|
      ensures !IsAt(s, name, k)
    {
      assert s[k..k + |name|][0] == s[k];
      if k < q {
        assert s[k] == name[k - |pre|];
        assert name[1..][k - |pre| - 1] == name[k - |pre|];
      } else {
        assert s[k] == gap[k - q];
      }
    }
  }

  /** A speed given in MHz reads back as its digits and " MHz". */
  lemma {:induction false} SpeedReadBack(pre: string, gap: string, n: nat, post: string)
    requires FindSub(pre, SpeedLabel) == -1
    requires AllSpace(gap)
    ensures SpeedField(pre + SpeedLabel + gap + NatToString(n) + MHzSuffix + post) == NatToString(n) + MHzSuffix
  {
    LabelsStartOnce();
    var ds := NatToString(n);
    var rest := gap + ds + MHzSuffix + post;
    assert pre + SpeedLabel + rest == pre + SpeedLabel + gap + ds + MHzSuffix + post;
    DigitsAfterName(pre + SpeedLabel, gap, ds, post);
    FirstMatch(pre, SpeedLabel, rest, MHzCapture);
  }

  /** `\s*(\d+)\s*MHz` right after `head` captures the digits before " MHz". */
  lemma {:induction false} DigitsAfterName(head: string, gap: string, ds: string, post: string)
    requires AllSpace(gap)
    requires ds != [] && forall k :: 0 <= k < |ds| ==> IsDigit(ds[k])
    ensures CaptureAt(head + (gap + ds + MHzSuffix + post), |head|, MHzCapture) == Some(ds)
  {
    var s := head + (gap + ds + MHzSuffix + post);
    DigitsLayout(s, head, gap, ds, post);
    MHzCaptureAfter(s, |head|, |head| + |gap|, |head| + |gap| + |ds|);
  }

  /** `\s*(\d+)\s*MHz` at `q` over whitespace up to `b`, digits up to `e`, then " MHz". */
  lemma {:induction false} MHzCaptureAfter(s: string, q: nat, b: nat, e: nat)
    requires q <= b < e && e + 4 <= |s|
    requires forall k :: q <= k < b ==> IsSpace(s[k])
    requires !IsSpace(s[b])
    requires forall k :: b <= k < e ==> IsDigit(s[k])
    requires !IsDigit(s[e]) && IsSpace(s[e])
    requires !IsSpace(s[e + 1]) && IsAt(s, MHz, e + 1)
    ensures CaptureAt(s, q, MHzCapture) == Some(s[b..e])
  {
    SpaceEndAfter(s, q, b - q);
    DigitEndAfter(s, b, e - b);
    SpaceEndAfter(s, e, 1);
    MHzCaptureIs(s, q, b, e);
  }

  /** `\s*(\d+)\s*MHz` at `q` captures the digits between the greedy runs when "MHz" follows them. */
  lemma {:induction false} MHzCaptureIs(s: string, q: nat, b: nat, e: nat)
    requires q <= b < e <= |s|
    requires SpaceEnd(s, q) == b && DigitEnd(s, b) == e && IsAt(s, MHz, SpaceEnd(s, e))
    ensures CaptureAt(s, q, MHzCapture) == Some(s[b..e])
  {
  }

  /** Where the pieces of `s == head + gap + ds + " MHz" + post` sit, and what the greedy runs see at their ends. */
  lemma {:induction false} DigitsLayout(s: string, head: string, gap: string, ds: string, post: string)
    requires s == head + (gap + ds + MHzSuffix + post)
    requires AllSpace(gap)
    requires ds != [] && forall k :: 0 <= k < |ds| ==> IsDigit(ds[k])
    ensures |head| + |gap| + |ds| + 4 <= |s|
    ensures forall k :: |head| <= k < |head| + |gap| ==> IsSpace(s[k])
    ensures !IsSpace(s[|head| + |gap|])
    ensures forall k :: |head| + |gap| <= k < |head| + |gap| + |ds| ==> IsDigit(s[k])
    ensures !IsDigit(s[|head| + |gap| + |ds|]) && IsSpace(s[|head| + |gap| + |ds|])
    ensures !IsSpace(s[|head| + |gap| + |ds| + 1]) && IsAt(s, MHz, |head| + |gap| + |ds| + 1)
    ensures s[|head| + |gap|..|head| + |gap| + |ds|] == ds
  {
    var q, b := |head|, |head| + |gap|;
    var e := b + |ds|;
    assert s[q..b] == gap && s[b..e] == ds && s[e..e + 4] == MHzSuffix;
    forall k | q <= k < b
      ensures IsSpace(s[k])
    {
      assert s[k] == gap[k - q];
    }
    forall k | b <= k < e
      ensures IsDigit(s[k])
    {
      assert s[k] == ds[k - b];
    }
    assert s[b] == ds[0];
    assert s[e] == s[e..e + 4][0] == ' ';
    assert s[e + 1] == s[e..e + 4][1] == 'M';
    assert s[e + 1..e + 4] == s[e..e + 4][1..];
  }

  /** Without "MHz" anywhere in the chunk (a speed given in MT/s, say) the speed is "N/A". */
  lemma {:induction false} SpeedNeedsMHz(dev: string)
    requires !Contains(dev, MHz)
    ensures SpeedField(dev) == NA
  {
    ContainsIff(dev, MHz);
    if Search(dev, SpeedLabel, MHzCapture, 0).Some? {
      SearchSome(dev, SpeedLabel, MHzCapture, 0);
    }
  }
}
