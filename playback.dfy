/** The waveform player as the page script drives it: the current region, the loop
    checkbox, the play/pause buttons, the `click`, `audioprocess` and `finish` handlers,
    and the timers of the region-creation retry. The waveform library itself is reduced
    to the state its calls read and write. */
module Playback {
  import opened Common
  import opened TimeFormat

  /** A region of the waveform, in seconds. */
  datatype Region = Region(start: real, end: real)

  /** A pending `setTimeout` callback: a further try at creating a region (the argument of
      `createRegionWithRetry`), or the delayed seek to a reference's start. */
  datatype Timer = Retry(start: real, end: real, attempt: nat) | DelayedSeek(target: real)

  /** The default length of a region created by clicking the waveform. */
  const DefaultRegionLength: real := 30.0

  /** The retry count after which `createRegionWithRetry` gives up. */
  const MaxRetries: nat := 10

  /** `Math.min`. */
  function Min(a: real, b: real): (m: real)
    ensures m <= a && m <= b && (m == a || m == b)
  {
    if a <= b then a else b
  }

  lemma NonNegativeProduct(a: real, b: real)
    requires 0.0 <= a && 0.0 <= b
    ensures 0.0 <= a * b
  {
  }

  /** The region a click at fraction `relativeX` of the waveform creates: it starts at the
      clicked time and lasts the default length, cut at the end of the track. */
  function ClickRegion(relativeX: real, duration: real): (r: Region)
    ensures r.start == relativeX * duration
    ensures r.end <= duration && r.end - r.start <= DefaultRegionLength
    ensures r.end == r.start + DefaultRegionLength || r.end == duration
    ensures 0.0 <= relativeX <= 1.0 && 0.0 <= duration ==> 0.0 <= r.start <= r.end
  {
    var startTime := relativeX * duration;
    assert 0.0 <= relativeX <= 1.0 && 0.0 <= duration ==> 0.0 <= startTime <= duration by {
      if 0.0 <= relativeX <= 1.0 && 0.0 <= duration {
        NonNegativeProduct(relativeX, duration);
        NonNegativeProduct(1.0 - relativeX, duration);
        assert duration - startTime == (1.0 - relativeX) * duration;
      }
    }
    Region(startTime, Min(startTime + DefaultRegionLength, duration))
  }

  /** The inclusive test of `isCurrentPositionInRegion`: false without a region. */
  predicate InRegion(region: Option<Region>, t: real) {
    region.Some? && region.value.start <= t && t <= region.value.end
  }

  /** What a timer still has to do, counted in callbacks: a retry at attempt `a` may fire
      up to `MaxRetries - a` further retries and one delayed seek. */
  function Weight(t: Timer): nat {
    match t
    case Retry(_, _, a) => if a <= MaxRetries then MaxRetries + 2 - a else 1
    case DelayedSeek(_) => 1
  }

  function PendingWork(ts: seq<Timer>): nat {
    if ts == [] then 0 else Weight(ts[0]) + PendingWork(ts[1..])
  }

  lemma {:induction false} PendingWorkAppend(a: seq<Timer>, b: seq<Timer>)
    ensures PendingWork(a + b) == PendingWork(a) + PendingWork(b)
    decreases |a|
  {
    if a == [] {
      assert a + b == b;
    } else {
      assert (a + b)[1..] == a[1..] + b;
      PendingWorkAppend(a[1..], b);
    }
  }

  /** Firing timer `i` takes its weight off the pending work. */
  lemma {:induction false} PendingWorkRemove(ts: seq<Timer>, i: nat)
    requires i < |ts|
    ensures PendingWork(ts[..i] + ts[i + 1..]) + Weight(ts[i]) == PendingWork(ts)
    decreases i
  {
    if i == 0 {
      assert ts[..0] + ts[1..] == ts[1..];
    } else {
      var tail := ts[1..];
      PendingWorkRemove(tail, i - 1);
      var removed := ts[..i] + ts[i + 1..];
      assert removed[0] == ts[0];
      assert removed[1..] == tail[..i - 1] + tail[i..];
      assert tail[i - 1] == ts[i];
    }
  }

  /** The part of the player that a chat reply can change: the regions, the current
      region, the two displays and the pending timers. */
  datatype PlayerView = PlayerView(regions: seq<Region>, current: Option<nat>,
                                   shownStart: real, shownEnd: real, timers: seq<Timer>)

  class Player {
    /** `wavesurfer.isReady` and `wavesurfer.getDuration()`. */
    var ready: bool
    var duration: real
    /** `wavesurfer.getCurrentTime()` and `wavesurfer.isPlaying()`. */
    var position: real
    var playing: bool
    /** `loopCheckbox.checked`. */
    var loop: bool
    /** The regions plugin's list of regions. */
    var regions: seq<Region>
    /** `currentRegion`, a reference to one of `regions`: here its index. */
    var current: Option<nat>
    /** The times `startTimeDisplay` and `endTimeDisplay` show, each as the text
        `FormatTime` gives for it (see DisplayTexts). */
    var shownStart: real
    var shownEnd: real
    /** Callbacks scheduled with `setTimeout` and not yet run. */
    var timers: seq<Timer>

    ghost predicate Valid()
      reads this
    {
      0.0 <= duration && (ready ==> 0.0 < duration)
      && (current.Some? ==> current.value < |regions|)
      && forall k :: 0 <= k < |timers| ==> (timers[k].Retry? ==> 1 <= timers[k].attempt <= MaxRetries)
    }

    /** `currentRegion`, followed to the region it refers to. */
    function CurrentRegion(): Option<Region>
      reads this
      requires Valid()
    {
      if current.Some? then Some(regions[current.value]) else None
    }

    /** The player right after `initWavesurfer`: loading, nothing selected. */
    constructor ()
      ensures Valid()
      ensures !ready && duration == 0.0 && position == 0.0 && !playing && !loop
      ensures regions == [] && current == None && timers == []
      ensures shownStart == 0.0 && shownEnd == 0.0
    {
      ready, duration, position, playing, loop := false, 0.0, 0.0, false, false;
      regions, current, timers := [], None, [];
      shownStart, shownEnd := 0.0, 0.0;
    }

    /** The library's `ready` event: the track is decoded and has length `d`. */
    method BecomeReady(d: real)
      requires Valid() && d > 0.0
      modifies this`ready, this`duration
      ensures Valid() && ready && duration == d
    {
      ready, duration := true, d;
    }

    /** The user ticks or clears the loop checkbox. */
    method SetLoop(checked: bool)
      requires Valid()
      modifies this`loop
      ensures Valid() && loop == checked
    {
      loop := checked;
    }

    function View(): PlayerView
      reads this
    {
      PlayerView(regions, current, shownStart, shownEnd, timers)
    }

    /** The texts of the two time displays. */
    function DisplayTexts(): (string, string)
      reads this
    {
      (FormatTime(shownStart), FormatTime(shownEnd))
    }

    /** `updateTimeDisplay(start, end)`. */
    method UpdateTimeDisplay(start: real, end: real)
      modifies this`shownStart, this`shownEnd
      ensures shownStart == start && shownEnd == end
    {
      shownStart, shownEnd := start, end;
    }

    /** `createRegion(start, end)`: nothing when the player is not ready; otherwise every
        earlier region is cleared and the new one is the only region and the current one. */
    method CreateRegion(start: real, end: real)
      requires Valid()
      modifies this`regions, this`current, this`shownStart, this`shownEnd
      ensures Valid()
      ensures !old(ready) ==>
                regions == old(regions) && current == old(current)
                && shownStart == old(shownStart) && shownEnd == old(shownEnd)
      ensures old(ready) ==>
                regions == [Region(start, end)] && current == Some(0)
                && CurrentRegion() == Some(Region(start, end))
                && shownStart == start && shownEnd == end
    {
      if !ready {
        return;
      }
      regions := [];
      regions := regions + [Region(start, end)];
      current := Some(|regions| - 1);
      UpdateTimeDisplay(start, end);
    }

    /** The waveform's `click` handler: when ready, a region of the default length at the
        clicked time, cut at the end of the track. */
    method Click(relativeX: real)
      requires Valid()
      modifies this`regions, this`current, this`shownStart, this`shownEnd
      ensures Valid()
      ensures !old(ready) ==>
                regions == old(regions) && current == old(current)
                && shownStart == old(shownStart) && shownEnd == old(shownEnd)
      ensures old(ready) ==>
                regions == [ClickRegion(relativeX, duration)] && current == Some(0)
                && shownStart == regions[0].start && shownEnd == regions[0].end
      ensures old(ready) && 0.0 <= relativeX <= 1.0 ==>
                0.0 <= regions[0].start <= regions[0].end <= duration
                && regions[0].end - regions[0].start <= DefaultRegionLength
    {
      if ready {
        var r := ClickRegion(relativeX, duration);
        CreateRegion(r.start, r.end);
      }
    }

    /** The `region-created` handler for a region the user drags out: the plugin adds it
        beside the others and it becomes the current region. */
    method RegionCreated(start: real, end: real)
      requires Valid()
      modifies this`regions, this`current, this`shownStart, this`shownEnd
      ensures Valid()
      ensures regions == old(regions) + [Region(start, end)] && current == Some(|old(regions)|)
      ensures shownStart == start && shownEnd == end
    {
      regions := regions + [Region(start, end)];
      current := Some(|regions| - 1);
      UpdateTimeDisplay(start, end);
    }

    /** The `region-update-end` handler: region `i` was moved or resized to `start..end`
        and becomes the current region. */
    method RegionUpdateEnd(i: nat, start: real, end: real)
      requires Valid() && i < |regions|
      modifies this`regions, this`current, this`shownStart, this`shownEnd
      ensures Valid()
      ensures regions == old(regions)[i := Region(start, end)] && current == Some(i)
      ensures shownStart == start && shownEnd == end
    {
      regions := regions[i := Region(start, end)];
      current := Some(i);
      UpdateTimeDisplay(start, end);
    }

    /** The `region-click` handler: seek to the clicked fraction of the track and keep
        playing only if it was playing. */
    method RegionClick(fraction: real)
      requires Valid()
      modifies this`position, this`playing
      ensures Valid()
      ensures position == fraction * duration && playing == old(playing)
    {
      var wasPlaying := playing;
      position := fraction * duration;
      if wasPlaying {
        playing := true;
      }
    }

    /** `isCurrentPositionInRegion()`: false without a region; otherwise whether the
        position lies in the current region, both ends included. */
    function IsCurrentPositionInRegion(): (b: bool)
      reads this
      requires Valid()
      ensures current.None? ==> !b
      ensures current.Some? ==>
                (b <==> regions[current.value].start <= position && position <= regions[current.value].end)
    {
      InRegion(CurrentRegion(), position)
    }

    /** The play button: from the start of the current region when the position lies in
        it (both ends included), from the start of the track otherwise; playing after. */
    method PlayButton()
      requires Valid()
      modifies this`position, this`playing
      ensures Valid() && playing
      ensures var r := old(CurrentRegion());
              if r.Some? && r.value.start <= old(position) <= r.value.end
              then position == r.value.start
              else position == 0.0
    {
      if current.Some? && IsCurrentPositionInRegion() {
        position := regions[current.value].start;
        playing := true;
      } else {
        position := 0.0;
        playing := true;
      }
    }

    /** The pause button: pauses when playing, resumes where it stands otherwise. */
    method PauseButton()
      requires Valid()
      modifies this`playing
      ensures Valid() && playing == !old(playing)
    {
      if playing {
        playing := false;
      } else {
        playing := true;
      }
    }

    /** The `audioprocess` handler: while looping a region and playing, reaching or passing
        the region's end jumps back to its start. Nothing else moves the position. */
    method AudioProcess()
      requires Valid()
      modifies this`position
      ensures Valid()
      ensures var r := old(CurrentRegion());
              if r.Some? && loop && playing && old(position) >= r.value.end
              then position == r.value.start
              else position == old(position)
    {
      if current.Some? && loop && playing {
        var currentTime := position;
        if currentTime >= regions[current.value].end {
          position := regions[current.value].start;
        }
      }
    }

    /** The `finish` handler: with the loop box ticked and a region, playback restarts at
        the region's start; otherwise nothing changes. */
    method Finish()
      requires Valid()
      modifies this`position, this`playing
      ensures Valid()
      ensures var r := old(CurrentRegion());
              if loop && r.Some?
              then position == r.value.start && playing
              else position == old(position) && playing == old(playing)
    {
      if loop && current.Some? {
        position := regions[current.value].start;
        playing := true;
      }
    }

    /** One call of `createRegionWithRetry(attempt)` for a reference `start..end`: when
        ready, the region is created and the seek to its start is scheduled; otherwise
        another try is scheduled, unless this was try number `MaxRetries`. */
    method Attempt(start: real, end: real, attempt: nat)
      requires Valid() && attempt <= MaxRetries
      modifies this`regions, this`current, this`shownStart, this`shownEnd, this`timers
      ensures Valid()
      ensures old(ready) ==>
                regions == [Region(start, end)] && current == Some(0)
                && shownStart == start && shownEnd == end
                && timers == old(timers) + [DelayedSeek(start)]
      ensures !old(ready) ==>
                regions == old(regions) && current == old(current)
                && shownStart == old(shownStart) && shownEnd == old(shownEnd)
      ensures !old(ready) && attempt < MaxRetries ==> timers == old(timers) + [Retry(start, end, attempt + 1)]
      ensures !old(ready) && attempt == MaxRetries ==> timers == old(timers)
      ensures PendingWork(timers) < PendingWork(old(timers)) + Weight(Retry(start, end, attempt))
    {
      if ready {
        CreateRegion(start, end);
        timers := timers + [DelayedSeek(start)];
        PendingWorkAppend(old(timers), [DelayedSeek(start)]);
      } else if attempt < MaxRetries {
        timers := timers + [Retry(start, end, attempt + 1)];
        PendingWorkAppend(old(timers), [Retry(start, end, attempt + 1)]);
      }
    }

    /** Timer `i` fires. Each firing lowers the pending work, so the retries for one
        reference stop after at most `MaxRetries + 1` tries in all. */
    method FireTimer(i: nat)
      requires Valid() && i < |timers|
      modifies this`position, this`regions, this`current, this`shownStart, this`shownEnd, this`timers
      ensures Valid()
      ensures PendingWork(timers) < PendingWork(old(timers))
      ensures old(timers[i]).DelayedSeek? ==>
        position == old(timers[i]).target && timers == old(timers[..i] + timers[i + 1..])
        && regions == old(regions) && current == old(current)
        && shownStart == old(shownStart) && shownEnd == old(shownEnd)
      ensures old(timers[i]).Retry? ==> position == old(position)
      ensures old(timers[i]).Retry? && old(ready) ==>
        var t := old(timers[i]);
        regions == [Region(t.start, t.end)] && current == Some(0)
        && shownStart == t.start && shownEnd == t.end
        && timers == old(timers[..i] + timers[i + 1..]) + [DelayedSeek(t.start)]
      ensures old(timers[i]).Retry? && !old(ready) ==>
        var t := old(timers[i]);
        regions == old(regions) && current == old(current)
        && shownStart == old(shownStart) && shownEnd == old(shownEnd)
        && timers == old(timers[..i] + timers[i + 1..])
                     + (if t.attempt < MaxRetries then [Retry(t.start, t.end, t.attempt + 1)] else [])
    {
      var t := timers[i];
      PendingWorkRemove(timers, i);
      timers := timers[..i] + timers[i + 1..];
      match t
      case DelayedSeek(target) =>
        position := target;
      case Retry(start, end, attempt) =>
        Attempt(start, end, attempt);
    }
  }
}
