/**
 * The instrument: its constants, the display state changed by key presses,
 * and one animation tick that ingests captured bytes, re-estimates the
 * frequency at most once per hop interval and prepares the triggered
 * display window.
 */
module Instrument {
  import opened Wrappers
  import Pcm
  import Buffer
  import FrequencyEstimator
  import TriggerAligner

  const RATE: nat := 48000
  /** Seconds of signal the frequency estimate is computed over. */
  const WINDOW_SEC: real := 2.0
  /** Minimum time between two frequency estimates. */
  const HOP_SEC: real := 0.25
  /** The sample history holds ten seconds. */
  const CAPACITY: nat := RATE * 10
  /** int(RATE * WINDOW_SEC). */
  const NEEDED_SAMPLES: nat := (RATE as real * WINDOW_SEC).Floor

  const MIN_TIME_WINDOW: real := 0.002
  const MIN_Y_LIMIT: real := 200.0
  const MAX_Y_LIMIT: real := 32768.0
  const ZOOM: real := 1.5

  function Max(a: real, b: real): real {
    if a >= b then a else b
  }

  function Min(a: real, b: real): real {
    if a <= b then a else b
  }

  /** s[-n:] if len(s) >= n else s: the most recent n samples, or all of them
      if fewer exist (and, as s[-0:] is all of s, all of them when n is 0). */
  function Recent(s: seq<int>, n: nat): (r: seq<int>)
    ensures |r| == if n == 0 || |s| < n then |s| else n
    ensures Buffer.IsSuffix(r, s)
  {
    if |s| >= n then (if n == 0 then s else s[|s| - n..]) else s
  }

  /** int(RATE * time_window); time_window is positive, so truncation is the floor. */
  function NumVis(timeWindow: real): (n: nat)
    requires timeWindow > 0.0
    ensures timeWindow >= MIN_TIME_WINDOW ==> n >= 96
  {
    (RATE as real * timeWindow).Floor
  }

  /** plot_data: the display window from the trigger offset on. */
  function Display(samples: seq<int>, timeWindow: real, triggerOn: bool, level: int): (r: seq<int>)
    requires timeWindow > 0.0
    ensures Buffer.IsSuffix(r, samples)
    ensures |r| > 0 <==> |samples| > 0
    ensures !triggerOn ==> r == Recent(samples, NumVis(timeWindow))
    ensures var vis := Recent(samples, NumVis(timeWindow));
      |r| == |vis| - TriggerAligner.TriggerOffset(vis, level, triggerOn)
  {
    var vis := Recent(samples, NumVis(timeWindow));
    var offset := TriggerAligner.TriggerOffset(vis, level, triggerOn);
    var r := vis[offset..];
    assert r == samples[|samples| - |vis| + offset..];
    r
  }

  ghost predicate AllSamples(s: seq<int>) {
    forall i :: 0 <= i < |s| ==> Pcm.IsSample(s[i])
  }

  /** Appending the left channel of decoded words keeps every retained sample 16-bit. */
  lemma ExtendKeepsRange(before: seq<int>, words: seq<int>)
    requires AllSamples(before) && AllSamples(words)
    ensures AllSamples(Buffer.LastN(before + Pcm.LeftChannel(words), CAPACITY))
  {
    var appended := before + Pcm.LeftChannel(words);
    assert AllSamples(appended);
    var r := Buffer.LastN(appended, CAPACITY);
    forall k | 0 <= k < |r|
      ensures Pcm.IsSample(r[k])
    {
      Buffer.LastNElements(appended, CAPACITY, k);
    }
  }

  class Scope {
    /** Visual window in seconds. */
    var timeWindow: real
    /** Vertical zoom: the plot shows -yLimit .. yLimit. */
    var yLimit: real
    var triggerOn: bool
    var triggerLevel: int
    var lastCalcTime: real
    var currentFreq: Option<real>
    /** The ten-second sample history. */
    const buffer: Buffer.SampleBuffer

    ghost predicate Valid()
      reads this, buffer
    {
      && buffer.Valid() && buffer.capacity == CAPACITY
      && AllSamples(buffer.samples)
      && MIN_TIME_WINDOW <= timeWindow
      && MIN_Y_LIMIT <= yLimit <= MAX_Y_LIMIT
      && (currentFreq.Some? ==> 0.0 < currentFreq.value < RATE as real)
    }

    constructor ()
      ensures Valid() && fresh(buffer)
      ensures timeWindow == 1.0 && yLimit == MAX_Y_LIMIT && triggerOn && triggerLevel == 0
      ensures lastCalcTime == 0.0 && currentFreq == None && buffer.samples == []
    {
      timeWindow := 1.0;
      yLimit := MAX_Y_LIMIT;
      triggerOn := true;
      triggerLevel := 0;
      lastCalcTime := 0.0;
      currentFreq := None;
      buffer := new Buffer.SampleBuffer(CAPACITY);
    }

    /** on_key: arrows zoom time and amplitude within their bounds, 't' toggles
        the trigger, any other key changes nothing. */
    method OnKey(key: string)
      requires Valid()
      modifies this
      ensures Valid()
      ensures key == "right" ==> timeWindow == old(timeWindow) * ZOOM
      ensures key == "left" ==> timeWindow == Max(MIN_TIME_WINDOW, old(timeWindow) / ZOOM)
      ensures key == "up" ==> yLimit == Max(MIN_Y_LIMIT, old(yLimit) / ZOOM)
      ensures key == "down" ==> yLimit == Min(MAX_Y_LIMIT, old(yLimit) * ZOOM)
      ensures key == "t" ==> triggerOn == !old(triggerOn)
      ensures key != "right" && key != "left" ==> timeWindow == old(timeWindow)
      ensures key != "up" && key != "down" ==> yLimit == old(yLimit)
      ensures key != "t" ==> triggerOn == old(triggerOn)
      ensures triggerLevel == old(triggerLevel) && lastCalcTime == old(lastCalcTime)
      ensures currentFreq == old(currentFreq)
    {
      if key == "right" {
        timeWindow := timeWindow * ZOOM;
      } else if key == "left" {
        timeWindow := Max(MIN_TIME_WINDOW, timeWindow / ZOOM);
      } else if key == "up" {
        yLimit := Max(MIN_Y_LIMIT, yLimit / ZOOM);
      } else if key == "down" {
        yLimit := Min(MAX_Y_LIMIT, yLimit * ZOOM);
      } else if key == "t" {
        triggerOn := !triggerOn;
      }
    }

    /** In `update` (Precision_Audio_Scope.py:143-149): unpack the bytes and
        append the left channel to the history; an odd byte count makes the
        unpacking fail and changes nothing. */
    method Ingest(raw: seq<Pcm.byte>) returns (ok: bool)
      requires Valid()
      modifies buffer
      ensures Valid()
      ensures ok == Pcm.Decode(raw).Some?
      ensures ok ==> buffer.samples == Buffer.LastN(old(buffer.samples) + Pcm.LeftChannel(Pcm.Decode(raw).value), CAPACITY)
      ensures !ok ==> buffer.samples == old(buffer.samples)
    {
      var words := Pcm.Decode(raw);
      if words.None? {
        return false;
      }
      var left := Pcm.LeftChannel(words.value);
      ExtendKeepsRange(buffer.samples, words.value);
      buffer.Extend(left);
      ok := true;
    }

    /** In `update` (Precision_Audio_Scope.py:152-158): re-estimate over the
        most recent WINDOW_SEC of samples once at least HOP_SEC has passed
        since the last estimate. */
    method Recalculate(now: real)
      requires Valid()
      modifies this
      ensures Valid()
      ensures if now - old(lastCalcTime) >= HOP_SEC
        then lastCalcTime == now
          && currentFreq == FrequencyEstimator.Frequency(Recent(buffer.samples, NEEDED_SAMPLES), RATE as real)
        else lastCalcTime == old(lastCalcTime) && currentFreq == old(currentFreq)
      ensures timeWindow == old(timeWindow) && yLimit == old(yLimit)
      ensures triggerOn == old(triggerOn) && triggerLevel == old(triggerLevel)
    {
      if now - lastCalcTime >= HOP_SEC {
        lastCalcTime := now;
        var calcInput := Recent(buffer.samples, NEEDED_SAMPLES);
        currentFreq := FrequencyEstimator.EstimateFreq(calcInput, RATE as real);
      }
    }

    /**
     * One animation tick, given the bytes read from the stream (empty when
     * none were available) and the current time. If the unpacking fails, the
     * tick's handler swallows the error and nothing changes. The result is the
     * sequence handed to the plot, None for a failed tick.
     */
    method Update(raw: seq<Pcm.byte>, now: real) returns (plot: Option<seq<int>>)
      requires Valid()
      modifies this, buffer
      ensures Valid()
      ensures timeWindow == old(timeWindow) && yLimit == old(yLimit)
      ensures triggerOn == old(triggerOn) && triggerLevel == old(triggerLevel)
      ensures Pcm.Decode(raw).None? ==>
        && plot.None?
        && buffer.samples == old(buffer.samples)
        && lastCalcTime == old(lastCalcTime) && currentFreq == old(currentFreq)
      ensures Pcm.Decode(raw).Some? ==>
        && buffer.samples == Buffer.LastN(old(buffer.samples) + Pcm.LeftChannel(Pcm.Decode(raw).value), CAPACITY)
        && (if now - old(lastCalcTime) >= HOP_SEC
            then lastCalcTime == now
              && currentFreq == FrequencyEstimator.Frequency(Recent(buffer.samples, NEEDED_SAMPLES), RATE as real)
            else lastCalcTime == old(lastCalcTime) && currentFreq == old(currentFreq))
        && plot == Some(Display(buffer.samples, timeWindow, triggerOn, triggerLevel))
    {
      var ok := Ingest(raw);
      if !ok {
        return None;
      }
      Recalculate(now);
      plot := Some(Display(buffer.samples, timeWindow, triggerOn, triggerLevel));
    }
  }
}
