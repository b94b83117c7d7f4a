/** The bookkeeping of the GUI window, without its widgets: the one-shot mail
    alert, the detection counts and timeline, the per-interval histogram, the
    selection of saved detections and the strings shown for them, the log
    line, the LED button colour and the start/stop guards. */
module App {
  import opened Wrappers
  import Strings
  import LedController
  import Detector

  /** Sentinel and priority labels, as the detector emits them. */
  const NO_DETECTION := "no_detection"
  const VVEL := "vvel"

  /** The button styles: `LED.TButton` is the gray one. */
  datatype Style = Gray | Red | Orange | Green | Blue | Yellow

  /** The detection dictionary as the window receives it; a missing key reads
      as the empty string. */
  datatype Detection = Detection(cls: string, confidence: string, timestamp: string)

  // ---------------------------------------------------------------------------
  // The mail alert: `email_sent` and the mail button's style, which doubles as
  // the "armed" flag (gray: inactive, blue: active).
  // ---------------------------------------------------------------------------

  datatype MailAlert = MailAlert(emailSent: bool, style: Style)

  /** At start-up nothing is sent and the button is gray. */
  const INITIAL_MAIL := MailAlert(false, Gray)

  /** `toggle_mail_alert`: gray becomes blue and any other style gray, but only
      while no mail has been sent. */
  function ToggleMailAlert(m: MailAlert): (r: MailAlert)
    ensures m.emailSent ==> r == m
    ensures !m.emailSent ==> !r.emailSent && (r.style == Blue <==> m.style == Gray)
    ensures !m.emailSent ==> r.style == Blue || r.style == Gray
  {
    if m.emailSent then m
    else if m.style == Gray then m.(style := Blue)
    else m.(style := Gray)
  }

  /** What `send_warning_email` did: returned True, returned False, or raised. */
  datatype SendOutcome = Sent | NotSent | SendRaised

  /** A send is attempted exactly for a "vvel" result while nothing has been
      sent and the alert is active. */
  predicate WantsSend(m: MailAlert, cls: string) {
    cls == VVEL && !m.emailSent && m.style == Blue
  }

  datatype MailStep = MailStep(alert: MailAlert, attempted: bool)

  /** The mail branch of the result handler. Only a send that returned True
      latches `email_sent` and turns the button gray; False or an exception
      leaves both, so the next "vvel" result retries. */
  function MailOnResult(m: MailAlert, cls: string, outcome: SendOutcome): (r: MailStep)
    ensures r.attempted <==> WantsSend(m, cls)
    ensures r.attempted && outcome == Sent ==> r.alert == MailAlert(true, Gray)
    ensures !(r.attempted && outcome == Sent) ==> r.alert == m
  {
    if WantsSend(m, cls) && outcome == Sent then MailStep(MailAlert(true, Gray), true)
    else MailStep(m, WantsSend(m, cls))
  }

  /** What can happen to the alert: a click on the mail button, or a result
      with its class and what the send (if attempted) did. */
  datatype MailEvent = Toggle | Result(cls: string, outcome: SendOutcome)

  function MailAfter(m: MailAlert, e: MailEvent): (r: MailStep)
  {
    match e
    case Toggle => MailStep(ToggleMailAlert(m), false)
    case Result(cls, outcome) => MailOnResult(m, cls, outcome)
  }

  /** The alert after a sequence of events. */
  function MailRun(m: MailAlert, events: seq<MailEvent>): MailAlert
    decreases events
  {
    if events == [] then m else MailRun(MailAfter(m, events[0]).alert, events[1..])
  }

  /** The number of sends that returned True along the events. */
  function SuccessfulSends(m: MailAlert, events: seq<MailEvent>): nat
    decreases events
  {
    if events == [] then 0
    else
      var step := MailAfter(m, events[0]);
      (if step.attempted && events[0].Result? && events[0].outcome == Sent then 1 else 0)
      + SuccessfulSends(step.alert, events[1..])
  }

  /** `email_sent` is never reset once true. */
  lemma {:induction false} EmailSentStays(m: MailAlert, events: seq<MailEvent>)
    requires m.emailSent
    decreases events
    ensures MailRun(m, events) == m
    ensures SuccessfulSends(m, events) == 0
  {
    if events != [] {
      EmailSentStays(MailAfter(m, events[0]).alert, events[1..]);
    }
  }

  /** Whatever the clicks, results and send outcomes, at most one send
      succeeds, and after one has succeeded the latch is set. */
  lemma {:induction false} AtMostOneSend(m: MailAlert, events: seq<MailEvent>)
    decreases events
    ensures SuccessfulSends(m, events) <= (if m.emailSent then 0 else 1)
    ensures SuccessfulSends(m, events) == 1 ==> MailRun(m, events).emailSent
  {
    if m.emailSent {
      EmailSentStays(m, events);
    } else if events != [] {
      var step := MailAfter(m, events[0]);
      AtMostOneSend(step.alert, events[1..]);
      if step.alert.emailSent {
        EmailSentStays(step.alert, events[1..]);
      }
    }
  }

  /** Two clicks before any send give the alert back. */
  lemma ToggleTwice(m: MailAlert)
    requires !m.emailSent && (m.style == Gray || m.style == Blue)
    ensures ToggleMailAlert(ToggleMailAlert(m)) == m
  {
  }

  // ---------------------------------------------------------------------------
  // `_update_charts`: `detection_counts` and `detection_timeline`.
  // ---------------------------------------------------------------------------

  /** A timeline entry `(timestamp, class)`. */
  datatype Entry = Entry(timestamp: string, cls: string)

  /** Number of timeline entries of class `c`. */
  function TimelineCount(timeline: seq<Entry>, c: string): nat
  {
    if timeline == [] then 0
    else TimelineCount(timeline[..|timeline| - 1], c) + (if timeline[|timeline| - 1].cls == c then 1 else 0)
  }

  /** The relation `_update_charts` keeps between the two: every class but
      "no_detection" is counted exactly as often as it is on the timeline, and
      the timeline holds no empty class. */
  ghost predicate Charted(counts: map<string, nat>, timeline: seq<Entry>) {
    && NO_DETECTION !in counts
    && (forall c :: c in counts ==> counts[c] == TimelineCount(timeline, c) && counts[c] > 0)
    && (forall c :: c != NO_DETECTION && TimelineCount(timeline, c) > 0 ==> c in counts)
    && TimelineCount(timeline, "") == 0
  }

  datatype Charts = Charts(counts: map<string, nat>, timeline: seq<Entry>)

  /** `_update_charts`: nothing for an empty class; otherwise count the class
      unless it is "no_detection", and append the entry in every case. */
  function UpdateCharts(c: Charts, d: Detection): (r: Charts)
    ensures d.cls == "" ==> r == c
    ensures d.cls != "" ==> r.timeline == c.timeline + [Entry(d.timestamp, d.cls)]
    ensures forall k :: k != d.cls || k == NO_DETECTION
                        ==> (k in r.counts <==> k in c.counts) && (k in c.counts ==> r.counts[k] == c.counts[k])
    ensures d.cls != "" && d.cls != NO_DETECTION
            ==> d.cls in r.counts && r.counts[d.cls] == (if d.cls in c.counts then c.counts[d.cls] else 0) + 1
  {
    if d.cls == "" then c
    else
      var counts := if d.cls != NO_DETECTION
                    then c.counts[d.cls := (if d.cls in c.counts then c.counts[d.cls] else 0) + 1]
                    else c.counts;
      Charts(counts, c.timeline + [Entry(d.timestamp, d.cls)])
  }

  /** The counts stay in step with the timeline. */
  lemma UpdateChartsKeepsCharted(c: Charts, d: Detection)
    requires Charted(c.counts, c.timeline)
    ensures Charted(UpdateCharts(c, d).counts, UpdateCharts(c, d).timeline)
  {
    if d.cls != "" {
      var tl := c.timeline + [Entry(d.timestamp, d.cls)];
      assert tl[..|tl| - 1] == c.timeline;
    }
  }

  // ---------------------------------------------------------------------------
  // The histogram of `redraw_combined_chart`. The intervals are given by their
  // "%H:%M" labels; `at` is the parse of a label (`interval_times`) and
  // `instant` the parse of a timeline timestamp. Counters are kept per LABEL,
  // as in the source's `defaultdict`, and read back label by label.
  // ---------------------------------------------------------------------------

  /** Index `i` is the interval of `dt`: `t_i <= dt < t_{i+1}`, or for the last
      one `dt >= t_last`. */
  predicate InBucket(dt: int, starts: seq<int>, i: nat) {
    i < |starts| && starts[i] <= dt && (i < |starts| - 1 ==> dt < starts[i + 1])
  }

  /** The scan from index `i` on: the first interval that holds `dt`. */
  function BucketFrom(dt: int, starts: seq<int>, i: nat): (b: Option<nat>)
    decreases |starts| - i
    ensures b.Some? ==> i <= b.value && InBucket(dt, starts, b.value)
    ensures b.Some? ==> forall j :: i <= j < b.value ==> !InBucket(dt, starts, j)
    ensures b.None? ==> forall j :: i <= j ==> !InBucket(dt, starts, j)
  {
    if i >= |starts| then None
    else if InBucket(dt, starts, i) then Some(i)
    else BucketFrom(dt, starts, i + 1)
  }

  /** The interval a detection time is counted in, if any. */
  function BucketOf(dt: int, starts: seq<int>): Option<nat> {
    BucketFrom(dt, starts, 0)
  }

  predicate StrictlyIncreasing(starts: seq<int>) {
    forall i, j :: 0 <= i < j < |starts| ==> starts[i] < starts[j]
  }

  /** For increasing starts the intervals partition the times from `t_0` on:
      a time before `t_0` is in none, any other in exactly one. */
  lemma {:induction false} BucketsPartition(dt: int, starts: seq<int>)
    requires StrictlyIncreasing(starts) && starts != []
    ensures BucketOf(dt, starts).None? <==> dt < starts[0]
    ensures forall i: nat :: InBucket(dt, starts, i) <==> BucketOf(dt, starts) == Some(i)
  {
    var n := |starts|;
    if dt >= starts[0] {
      // the last start at or below dt holds it
      var k := 0;
      while k + 1 < n && starts[k + 1] <= dt
        invariant 0 <= k < n && starts[k] <= dt
      {
        k := k + 1;
      }
      assert InBucket(dt, starts, k);
    }
  }

  /** Which series an entry feeds: "vvel" the first, every other class but
      "no_detection" the second. */
  predicate InSeries(cls: string, vvel: bool) {
    cls != NO_DETECTION && (cls == VVEL <==> vvel)
  }

  /** A `defaultdict` read: a missing label counts zero. */
  function Get(m: map<string, nat>, key: string): nat {
    if key in m then m[key] else 0
  }

  /** `interval_times`: the start of each interval, parsed from its label. */
  function Starts(labels: seq<string>, at: string -> int): (s: seq<int>)
    ensures |s| == |labels| && forall i :: 0 <= i < |labels| ==> s[i] == at(labels[i])
  {
    seq(|labels|, i requires 0 <= i < |labels| => at(labels[i]))
  }

  /** The per-label counters of one series after the scan over `timeline`: an
      entry of the series adds one under the label of the interval its time
      falls in. */
  function Counters(timeline: seq<Entry>, labels: seq<string>, at: string -> int,
                    instant: string -> int, vvel: bool): map<string, nat>
  {
    if timeline == [] then map[]
    else
      var prev := Counters(timeline[..|timeline| - 1], labels, at, instant, vvel);
      var e := timeline[|timeline| - 1];
      if InSeries(e.cls, vvel) then
        match BucketOf(instant(e.timestamp), Starts(labels, at))
        case Some(i) => prev[labels[i] := Get(prev, labels[i]) + 1]
        case None => prev
      else prev
  }

  /** The bars read back label by label. */
  function Bars(m: map<string, nat>, labels: seq<string>): (b: seq<nat>)
    ensures |b| == |labels| && forall i :: 0 <= i < |labels| ==> b[i] == Get(m, labels[i])
  {
    seq(|labels|, i requires 0 <= i < |labels| => Get(m, labels[i]))
  }

  /** The bar heights of one series: all zero without a timeline, otherwise
      the counters read back. Intervals that carry the same label share a bar
      height. */
  function Tally(timeline: seq<Entry>, labels: seq<string>, at: string -> int,
                 instant: string -> int, vvel: bool): (t: seq<nat>)
    ensures |t| == |labels|
    ensures forall i, j :: 0 <= i < |labels| && 0 <= j < |labels| && labels[i] == labels[j] ==> t[i] == t[j]
  {
    if timeline == [] then seq(|labels|, _ => 0)
    else Bars(Counters(timeline, labels, at, instant, vvel), labels)
  }

  /** Entry `e` is counted under `key`: it feeds the series and the interval
      its time falls in carries the label `key`. */
  predicate CountedUnder(e: Entry, labels: seq<string>, at: string -> int,
                         instant: string -> int, vvel: bool, key: string) {
    && InSeries(e.cls, vvel)
    && var b := BucketOf(instant(e.timestamp), Starts(labels, at));
    && b.Some? && b.value < |labels| && labels[b.value] == key
  }

  /** Reference count, from the front: the entries counted under `key`. */
  function Hits(timeline: seq<Entry>, labels: seq<string>, at: string -> int,
                instant: string -> int, vvel: bool, key: string): nat
  {
    if timeline == [] then 0
    else (if CountedUnder(timeline[0], labels, at, instant, vvel, key) then 1 else 0)
         + Hits(timeline[1..], labels, at, instant, vvel, key)
  }

  lemma {:induction false} HitsAppend(timeline: seq<Entry>, e: Entry, labels: seq<string>, at: string -> int,
                                      instant: string -> int, vvel: bool, key: string)
    ensures Hits(timeline + [e], labels, at, instant, vvel, key)
            == Hits(timeline, labels, at, instant, vvel, key)
               + (if CountedUnder(e, labels, at, instant, vvel, key) then 1 else 0)
  {
    if timeline != [] {
      assert (timeline + [e])[1..] == timeline[1..] + [e];
      HitsAppend(timeline[1..], e, labels, at, instant, vvel, key);
    }
  }

  /** Each counter holds exactly the entries counted under its label. */
  lemma {:induction false} CountersAreHits(timeline: seq<Entry>, labels: seq<string>, at: string -> int,
                                           instant: string -> int, vvel: bool, key: string)
    ensures Get(Counters(timeline, labels, at, instant, vvel), key) == Hits(timeline, labels, at, instant, vvel, key)
  {
    if timeline != [] {
      var p := timeline[..|timeline| - 1];
      var e := timeline[|timeline| - 1];
      assert timeline == p + [e];
      CountersAreHits(p, labels, at, instant, vvel, key);
      HitsAppend(p, e, labels, at, instant, vvel, key);
    }
  }

  /** What each bar counts: bar `i` of a series is the number of entries of
      that series whose time falls in an interval labelled like interval `i`. */
  lemma TallyCounts(timeline: seq<Entry>, labels: seq<string>, at: string -> int,
                    instant: string -> int, vvel: bool, i: nat)
    requires i < |labels|
    ensures Tally(timeline, labels, at, instant, vvel)[i] == Hits(timeline, labels, at, instant, vvel, labels[i])
  {
    if timeline != [] {
      CountersAreHits(timeline, labels, at, instant, vvel, labels[i]);
    }
  }

  /** Two intervals with the same label (a sub-minute interval) share one
      counter: a single "other" detection raises both bars. */
  lemma SharedLabelRaisesBothBars()
    ensures Tally([Entry("20250101-120000", "vespa_crabro")], ["12:00", "12:00"], _ => 5, _ => 5, false) == [1, 1]
  {
    var labels := ["12:00", "12:00"];
    var starts := Starts(labels, _ => 5);
    assert BucketFrom(5, starts, 1) == Some(1);
    assert BucketOf(5, starts) == Some(1);
    var m := Counters([Entry("20250101-120000", "vespa_crabro")], labels, _ => 5, _ => 5, false);
    assert Counters([], labels, _ => 5, _ => 5, false) == map[];
    assert m == map["12:00" := 1];
  }

  /** A "no_detection" entry changes neither series. */
  lemma NoDetectionAddsNothing(timeline: seq<Entry>, ts: string, labels: seq<string>, at: string -> int,
                               instant: string -> int, vvel: bool)
    ensures Tally(timeline + [Entry(ts, NO_DETECTION)], labels, at, instant, vvel)
            == Tally(timeline, labels, at, instant, vvel)
  {
    var t := timeline + [Entry(ts, NO_DETECTION)];
    assert t[..|t| - 1] == timeline;
    if timeline == [] {
      assert Counters(timeline, labels, at, instant, vvel) == map[];
    }
  }

  function Sum(t: seq<nat>): nat {
    if t == [] then 0 else Sum(t[..|t| - 1]) + t[|t| - 1]
  }

  lemma {:induction false} SumIncrement(t: seq<nat>, i: nat)
    requires i < |t|
    ensures Sum(t[i := t[i] + 1]) == Sum(t) + 1
  {
    var n := |t| - 1;
    var u := t[i := t[i] + 1];
    assert u[..n] == if i < n then t[..n][i := t[i] + 1] else t[..n];
    if i < n {
      SumIncrement(t[..n], i);
    }
  }

  lemma {:induction false} ZeroSum(z: seq<nat>)
    requires forall k :: 0 <= k < |z| ==> z[k] == 0
    ensures Sum(z) == 0
  {
    if z != [] {
      ZeroSum(z[..|z| - 1]);
    }
  }

  /** Number of entries that are detections, not "no_detection". */
  function Detections(timeline: seq<Entry>): nat {
    if timeline == [] then 0
    else Detections(timeline[..|timeline| - 1]) + (if timeline[|timeline| - 1].cls != NO_DETECTION then 1 else 0)
  }

  predicate Distinct(labels: seq<string>) {
    forall i, j :: 0 <= i < j < |labels| ==> labels[i] != labels[j]
  }

  /** With distinct labels, one more under label `i` raises bar `i` alone. */
  lemma BarsIncrement(m: map<string, nat>, labels: seq<string>, i: nat)
    requires Distinct(labels) && i < |labels|
    ensures Bars(m[labels[i] := Get(m, labels[i]) + 1], labels)
            == Bars(m, labels)[i := Get(m, labels[i]) + 1]
  {
    var b := Bars(m, labels);
    var c := Bars(m[labels[i] := Get(m, labels[i]) + 1], labels);
    forall j | 0 <= j < |labels|
      ensures c[j] == b[i := Get(m, labels[i]) + 1][j]
    {
      if j != i {
        assert labels[j] != labels[i];
      }
    }
  }

  /** One more entry raises the bars of a series by one at most, and only
      when it feeds that series. */
  lemma SeriesStep(p: seq<Entry>, e: Entry, labels: seq<string>, at: string -> int,
                   instant: string -> int, vvel: bool)
    requires Distinct(labels)
    ensures Sum(Bars(Counters(p + [e], labels, at, instant, vvel), labels))
            <= Sum(Bars(Counters(p, labels, at, instant, vvel), labels)) + (if InSeries(e.cls, vvel) then 1 else 0)
  {
    var t := p + [e];
    assert t[..|t| - 1] == p;
    var m := Counters(p, labels, at, instant, vvel);
    if InSeries(e.cls, vvel) {
      match BucketOf(instant(e.timestamp), Starts(labels, at))
      case Some(i) =>
        BarsIncrement(m, labels, i);
        SumIncrement(Bars(m, labels), i);
      case None =>
    }
  }

  lemma {:induction false} CountersBounded(timeline: seq<Entry>, labels: seq<string>, at: string -> int,
                                           instant: string -> int)
    requires Distinct(labels)
    ensures Sum(Bars(Counters(timeline, labels, at, instant, true), labels))
            + Sum(Bars(Counters(timeline, labels, at, instant, false), labels))
            <= Detections(timeline)
  {
    if timeline == [] {
      ZeroSum(Bars(map[], labels));
    } else {
      var p := timeline[..|timeline| - 1];
      var e := timeline[|timeline| - 1];
      assert timeline == p + [e];
      CountersBounded(p, labels, at, instant);
      SeriesStep(p, e, labels, at, instant, true);
      SeriesStep(p, e, labels, at, instant, false);
    }
  }

  /** With distinct labels every detection adds one to at most one bar of at
      most one series. (With a repeated label it can raise several: see
      `SharedLabelRaisesBothBars`.) */
  lemma TallyBounded(timeline: seq<Entry>, labels: seq<string>, at: string -> int, instant: string -> int)
    requires Distinct(labels)
    ensures Sum(Tally(timeline, labels, at, instant, true)) + Sum(Tally(timeline, labels, at, instant, false))
            <= Detections(timeline)
  {
    if timeline == [] {
      ZeroSum(seq(|labels|, _ => 0));
    } else {
      CountersBounded(timeline, labels, at, instant);
    }
  }

  /** The loop of `redraw_combined_chart` over the timeline, with its inner scan
      over the interval starts and its `break`, counting into per-label maps. */
  method Histogram(timeline: seq<Entry>, labels: seq<string>, at: string -> int, instant: string -> int)
    returns (vvelCounts: seq<nat>, otherCounts: seq<nat>)
    ensures vvelCounts == Tally(timeline, labels, at, instant, true)
    ensures otherCounts == Tally(timeline, labels, at, instant, false)
  {
    if timeline == [] {
      vvelCounts := seq(|labels|, _ => 0);
      otherCounts := seq(|labels|, _ => 0);
      return;
    }
    var starts := Starts(labels, at);
    var vvelMap: map<string, nat> := map[];
    var otherMap: map<string, nat> := map[];
    var n := 0;
    while n < |timeline|
      invariant 0 <= n <= |timeline|
      invariant vvelMap == Counters(timeline[..n], labels, at, instant, true)
      invariant otherMap == Counters(timeline[..n], labels, at, instant, false)
    {
      var e := timeline[n];
      assert timeline[..n + 1][..n] == timeline[..n];
      if e.cls != NO_DETECTION {
        var dt := instant(e.timestamp);
        var i := 0;
        ghost var found := false;
        while i < |starts|
          invariant 0 <= i <= |starts|
          invariant !found ==> BucketOf(dt, starts) == BucketFrom(dt, starts, i)
          invariant found ==> i == |starts| && BucketOf(dt, starts) == Some(i - 1)
          invariant !found ==> vvelMap == Counters(timeline[..n], labels, at, instant, true)
                               && otherMap == Counters(timeline[..n], labels, at, instant, false)
          invariant found ==> vvelMap == Counters(timeline[..n + 1], labels, at, instant, true)
                              && otherMap == Counters(timeline[..n + 1], labels, at, instant, false)
        {
          if i < |starts| - 1 {
            if starts[i] <= dt < starts[i + 1] {
              var key := labels[i];
              if e.cls == VVEL {
                vvelMap := vvelMap[key := Get(vvelMap, key) + 1];
              } else {
                otherMap := otherMap[key := Get(otherMap, key) + 1];
              }
              break;
            }
          } else {
            if dt >= starts[i] {
              var key := labels[i];
              if e.cls == VVEL {
                vvelMap := vvelMap[key := Get(vvelMap, key) + 1];
              } else {
                otherMap := otherMap[key := Get(otherMap, key) + 1];
              }
              found := true;
            }
          }
          i := i + 1;
        }
      }
      n := n + 1;
    }
    assert timeline[..n] == timeline;
    vvelCounts := Bars(vvelMap, labels);
    otherCounts := Bars(otherMap, labels);
  }

  // ---------------------------------------------------------------------------
  // `create_saved_detections_section`: the saved "vvel" images, best first.
  // ---------------------------------------------------------------------------

  /** At most this many saved detections are shown; placeholders fill the rest. */
  const SHOWN: nat := 4

  /** One kept file: its name, the confidence parsed from the second
      '-'-separated part and the time part of the fourth. */
  datatype Saved = Saved(name: string, confidence: int, timePart: string)

  /** The file name starts with "vvel" and has at least four '-'-parts. */
  predicate Eligible(f: string) {
    Strings.StartsWith(f, VVEL) && |Strings.Split(f, '-')| >= 4
  }

  /** `parts[3].split('.')[0]`. */
  function TimePart(f: string): string
    requires |Strings.Split(f, '-')| >= 4
  {
    Strings.Split(Strings.Split(f, '-')[3], '.')[0]
  }

  /** The confidence text of a file name. */
  function ConfidenceText(f: string): string
    requires |Strings.Split(f, '-')| >= 4
  {
    Strings.Split(f, '-')[1]
  }

  /** The names of the eligible files, in listing order. */
  function EligibleFiles(files: seq<string>): (r: seq<string>)
    ensures forall f :: f in r <==> f in files && Eligible(f)
  {
    if files == [] then []
    else
      var prev := EligibleFiles(files[..|files| - 1]);
      var f := files[|files| - 1];
      assert files == files[..|files| - 1] + [f];
      if Eligible(f) then prev + [f] else prev
  }

  function Names(s: seq<Saved>): (r: seq<string>)
    ensures |r| == |s| && forall k :: 0 <= k < |s| ==> r[k] == s[k].name
  {
    if s == [] then [] else Names(s[..|s| - 1]) + [s[|s| - 1].name]
  }

  /** Some eligible file has a confidence text the parse rejects: `float`
      raises and the section is not built. */
  predicate HasBadConfidence(files: seq<string>, parse: string -> Option<int>) {
    && files != []
    && ((Eligible(files[|files| - 1]) && parse(ConfidenceText(files[|files| - 1])).None?)
        || HasBadConfidence(files[..|files| - 1], parse))
  }

  lemma {:induction false} HasBadConfidenceIff(files: seq<string>, parse: string -> Option<int>)
    ensures HasBadConfidence(files, parse)
            <==> exists k :: 0 <= k < |files| && Eligible(files[k]) && parse(ConfidenceText(files[k])).None?
  {
    if files != [] {
      var p := files[..|files| - 1];
      HasBadConfidenceIff(p, parse);
      assert forall k :: 0 <= k < |p| ==> files[k] == p[k];
    }
  }

  /** The `image_data` list; None where a parse raises. */
  function ImageData(files: seq<string>, parse: string -> Option<int>): (r: Option<seq<Saved>>)
    ensures r.None? <==> HasBadConfidence(files, parse)
  {
    if files == [] then Some([])
    else
      var prev := ImageData(files[..|files| - 1], parse);
      var f := files[|files| - 1];
      if !Eligible(f) then prev
      else match parse(ConfidenceText(f))
        case None => None
        case Some(c) => if prev.None? then None else Some(prev.value + [Saved(f, c, TimePart(f))])
  }

  /** The list holds the eligible files, in listing order, each with its
      parsed confidence and its time part. */
  lemma {:induction false} ImageDataEntries(files: seq<string>, parse: string -> Option<int>)
    requires !HasBadConfidence(files, parse)
    ensures Names(ImageData(files, parse).value) == EligibleFiles(files)
    ensures forall x :: x in ImageData(files, parse).value ==>
              Eligible(x.name) && parse(ConfidenceText(x.name)) == Some(x.confidence) && x.timePart == TimePart(x.name)
  {
    if files != [] {
      var p := files[..|files| - 1];
      ImageDataEntries(p, parse);
      var prev := ImageData(p, parse).value;
      var f := files[|files| - 1];
      if Eligible(f) {
        var x := Saved(f, parse(ConfidenceText(f)).value, TimePart(f));
        assert ImageData(files, parse).value == prev + [x];
        assert Names(prev + [x]) == Names(prev) + [f];
      }
    }
  }

  /** The loop that fills `image_data` from the listing. */
  method BuildImageData(files: seq<string>, parse: string -> Option<int>) returns (r: Option<seq<Saved>>)
    ensures r == ImageData(files, parse)
  {
    var data: seq<Saved> := [];
    var n := 0;
    while n < |files|
      invariant 0 <= n <= |files|
      invariant ImageData(files[..n], parse) == Some(data)
    {
      var f := files[n];
      assert files[..n + 1][..n] == files[..n];
      if Strings.StartsWith(f, VVEL) {
        var parts := Strings.Split(f, '-');
        if |parts| >= 4 {
          var c := parse(parts[1]);
          if c.None? {
            // `float(parts[1])` raises; nothing below it runs
            HasBadConfidenceIff(files, parse);
            return None;
          }
          data := data + [Saved(f, c.value, Strings.Split(parts[3], '.')[0])];
        }
      }
      n := n + 1;
    }
    assert files[..n] == files;
    r := Some(data);
  }

  /** Non-increasing by confidence. */
  predicate ByConfidence(s: seq<Saved>) {
    forall i, j :: 0 <= i < j < |s| ==> s[i].confidence >= s[j].confidence
  }

  /** `x` placed after every entry of at least its confidence. */
  function InsertByConfidence(x: Saved, t: seq<Saved>): (r: seq<Saved>)
    ensures multiset(r) == multiset(t) + multiset{x}
  {
    if t == [] then [x]
    else if t[0].confidence >= x.confidence then
      assert t == [t[0]] + t[1..];
      [t[0]] + InsertByConfidence(x, t[1..])
    else [x] + t
  }

  /** Inserting into an ordered list keeps it ordered. */
  lemma {:induction false} InsertKeepsOrder(x: Saved, t: seq<Saved>)
    requires ByConfidence(t)
    ensures ByConfidence(InsertByConfidence(x, t))
  {
    if t != [] && t[0].confidence >= x.confidence {
      var rest := InsertByConfidence(x, t[1..]);
      InsertKeepsOrder(x, t[1..]);
      if |t| > 1 {
        assert t[0].confidence >= t[1].confidence;
      }
      assert rest[0].confidence <= t[0].confidence;
    }
  }

  /** `image_data.sort(key=confidence, reverse=True)`: an insertion sort that
      keeps the listing order among equal confidences. */
  function SortByConfidence(s: seq<Saved>): (r: seq<Saved>)
    ensures multiset(r) == multiset(s)
    ensures ByConfidence(r)
  {
    if s == [] then []
    else
      var p := s[..|s| - 1];
      assert s == p + [s[|s| - 1]];
      InsertKeepsOrder(s[|s| - 1], SortByConfidence(p));
      InsertByConfidence(s[|s| - 1], SortByConfidence(p))
  }

  /** What the section shows: the top entries and the number of placeholders. */
  datatype Shown = Shown(top: seq<Saved>, placeholders: nat)

  /** `image_data[:4]` and the number of placeholders after it. */
  function TakeTop(sorted: seq<Saved>): (r: Shown)
    ensures |r.top| == (if |sorted| < SHOWN then |sorted| else SHOWN) && |r.top| + r.placeholders == SHOWN
    ensures r.top == sorted[..|r.top|]
    ensures ByConfidence(sorted) ==> ByConfidence(r.top)
  {
    var top := if |sorted| <= SHOWN then sorted else sorted[..SHOWN];
    Shown(top, SHOWN - |top|)
  }

  /** The section's content, or None when it raises. */
  function SelectSaved(files: seq<string>, parse: string -> Option<int>): (r: Option<Shown>)
    ensures r.None? <==> HasBadConfidence(files, parse)
    ensures r.Some? ==> |r.value.top| <= SHOWN && |r.value.top| + r.value.placeholders == SHOWN
    ensures r.Some? ==> ByConfidence(r.value.top)
    ensures r.Some? ==> |r.value.top| == if |EligibleFiles(files)| < SHOWN then |EligibleFiles(files)| else SHOWN
  {
    match ImageData(files, parse)
    case None => None
    case Some(data) =>
      ImageDataEntries(files, parse);
      var sorted := SortByConfidence(data);
      assert |sorted| == |multiset(sorted)| == |data|;
      Some(TakeTop(sorted))
  }

  /** The shown entries are the first ones of the sorted list. */
  lemma TopIsSortedPrefix(files: seq<string>, parse: string -> Option<int>)
    requires !HasBadConfidence(files, parse)
    ensures var sorted := SortByConfidence(ImageData(files, parse).value);
            var top := SelectSaved(files, parse).value.top;
            |top| <= |sorted| && top == sorted[..|top|]
  {
  }

  /** A prefix takes nothing the whole list does not have. */
  lemma PrefixWithin(s: seq<Saved>, n: nat)
    requires n <= |s|
    ensures multiset(s[..n]) <= multiset(s)
  {
    assert s == s[..n] + s[n..];
  }

  /** The shown entries are taken from the kept files. */
  lemma TopFromKept(files: seq<string>, parse: string -> Option<int>)
    requires !HasBadConfidence(files, parse)
    ensures multiset(SelectSaved(files, parse).value.top) <= multiset(ImageData(files, parse).value)
  {
    var sorted := SortByConfidence(ImageData(files, parse).value);
    var top := SelectSaved(files, parse).value.top;
    TopIsSortedPrefix(files, parse);
    PrefixWithin(sorted, |top|);
  }

  /** In a list ordered by confidence, an entry outside a prefix has no
      higher confidence than any entry inside it. */
  lemma OutsidePrefixNoBetter(sorted: seq<Saved>, top: seq<Saved>, y: Saved)
    requires ByConfidence(sorted) && |top| <= |sorted| && top == sorted[..|top|]
    requires y in sorted && y !in top
    ensures forall i :: 0 <= i < |top| ==> y.confidence <= top[i].confidence
  {
    var j :| 0 <= j < |sorted| && sorted[j] == y;
    forall i | 0 <= i < |top|
      ensures y.confidence <= top[i].confidence
    {
      assert top[i] == sorted[i];
    }
  }

  /** No kept file left out has a higher confidence than any shown one. */
  lemma TopAreBest(files: seq<string>, parse: string -> Option<int>)
    requires !HasBadConfidence(files, parse)
    ensures var data := ImageData(files, parse).value;
            var top := SelectSaved(files, parse).value.top;
            forall y :: y in data && y !in top ==>
              forall i :: 0 <= i < |top| ==> y.confidence <= top[i].confidence
  {
    var data := ImageData(files, parse).value;
    var sorted := SortByConfidence(data);
    var top := SelectSaved(files, parse).value.top;
    TopIsSortedPrefix(files, parse);
    forall y | y in data && y !in top
      ensures forall i :: 0 <= i < |top| ==> y.confidence <= top[i].confidence
    {
      assert y in multiset(sorted);
      OutsidePrefixNoBetter(sorted, top, y);
    }
  }

  /** The loop that builds the section's content. */
  method CreateSavedDetections(files: seq<string>, parse: string -> Option<int>) returns (r: Option<Shown>)
    ensures r == SelectSaved(files, parse)
  {
    var data := BuildImageData(files, parse);
    if data.None? {
      return None;
    }
    var sorted := SortByConfidence(data.value);
    r := Some(TakeTop(sorted));
  }

  /** The label under a thumbnail: six characters read as `hhmmss` become
      `hh:mm:ss`; anything else is shown as it is. */
  function FormatTime(t: string): (r: string)
    ensures |t| == 6 ==> |r| == 8 && r[2] == ':' && r[5] == ':' && r[..2] + r[3..5] + r[6..] == t
    ensures |t| != 6 ==> r == t
  {
    if |t| == 6 then
      var r := t[..2] + ":" + t[2..4] + ":" + t[4..];
      assert r[..2] == t[..2] && r[3..5] == t[2..4] && r[6..] == t[4..];
      assert t == t[..2] + t[2..4] + t[4..];
      r
    else t
  }

  // ---------------------------------------------------------------------------
  // The log line and the LED button.
  // ---------------------------------------------------------------------------

  /** Where each piece of a five-fold concatenation sits. */
  lemma LinePieces(a: string, b: string, c: string, e: string, f: string, g: string)
    ensures var s := a + b + c + e + f + g;
            var i, j, k := |a| + |b|, |a| + |b| + |c|, |a| + |b| + |c| + |e|;
            && s[|a|..i] == b && s[i..j] == c && s[j..k] == e && s[k..k + |f|] == f
  {
    var s := a + b + c + e + f + g;
    var i, j, k := |a| + |b|, |a| + |b| + |c|, |a| + |b| + |c| + |e|;
    assert s[|a|..i] == b by { assert forall n :: |a| <= n < i ==> s[n] == b[n - |a|]; }
    assert s[i..j] == c by { assert forall n :: i <= n < j ==> s[n] == c[n - i]; }
    assert s[j..k] == e by { assert forall n :: j <= n < k ==> s[n] == e[n - j]; }
    assert s[k..k + |f|] == f by { assert forall n :: k <= n < k + |f| ==> s[n] == f[n - k]; }
  }

  /** The line appended to the log for one result. */
  function LogEntry(d: Detection): (line: string)
    ensures Strings.StartsWith(line, d.timestamp + " - ")
    ensures |line| > 0 && line[|line| - 1] == '\n'
    ensures d.cls == NO_DETECTION <==> line == d.timestamp + " - No detections\n"
    ensures d.cls != NO_DETECTION ==>
              var k := |d.timestamp| + 10;
              && |line| == k + |d.cls| + 14 + |d.confidence| + 1
              && line[|d.timestamp| + 3..k] == "Class: "
              && line[k..k + |d.cls|] == d.cls
              && line[k + |d.cls|..k + |d.cls| + 14] == ", Confidence: "
              && line[k + |d.cls| + 14..|line| - 1] == d.confidence
  {
    if d.cls == NO_DETECTION then d.timestamp + " - No detections\n"
    else
      var line := d.timestamp + " - " + "Class: " + d.cls + ", Confidence: " + d.confidence + "\n";
      assert line[|d.timestamp| + 3] == 'C';
      LinePieces(d.timestamp + " - ", "Class: ", d.cls, ", Confidence: ", d.confidence, "\n");
      line
  }

  /** `_update_led_status`: yellow while the LED reports on, otherwise red
      when armed and gray when not. */
  function LedButtonStyle(status: bool, enabled: bool): (r: Style)
    ensures r == Yellow <==> status
    ensures r == Red <==> !status && enabled
    ensures r == Gray <==> !status && !enabled
  {
    if status then Yellow else if enabled then Red else Gray
  }

  /** For the LED controller the window uses: yellow exactly when the LED is
      on (it is then armed), red when armed and off, gray when disarmed. */
  lemma LedButtonShowsController(s: LedController.Led, hw: LedController.Hardware)
    requires LedController.Valid(s, hw)
    ensures var style := LedButtonStyle(LedController.Status(s), s.enabled);
            && (style == Yellow <==> s.isOn)
            && (style == Red <==> s.enabled && !s.isOn)
            && (style == Gray <==> !s.enabled)
  {
  }

  // ---------------------------------------------------------------------------
  // The window object.
  // ---------------------------------------------------------------------------

  class VespcvGui {
    var isDetecting: bool
    const detector: Detector.DetectionController
    var emailSent: bool
    var mailStyle: Style
    var detectionCounts: map<string, nat>
    var detectionTimeline: seq<Entry>
    var log: seq<string>

    function Mail(): MailAlert
      reads this
    {
      MailAlert(emailSent, mailStyle)
    }

    /** The charts' counts mirror the timeline; every method keeps this. */
    ghost predicate Valid()
      reads this
    {
      Charted(detectionCounts, detectionTimeline)
    }

    /** `is_detecting` agrees with whether the detector runs. The window's
        guards keep this once it holds, but the detector thread can end on
        its own (a capture interval that makes its sleep raise), and then
        `is_detecting` stays true with nothing running. */
    ghost predicate Mirror()
      reads this, detector
    {
      isDetecting == Detector.IsRunning(detector.Flags())
    }

    /** The window builds its controller and starts detection at launch. */
    constructor (config: Detector.Config)
      ensures Valid() && Mirror() && fresh(detector) && isDetecting
      ensures detector.config == config
      ensures detector.Flags() == Detector.RunFlags(Detector.Alive, false, false)
      ensures Mail() == INITIAL_MAIL && detectionCounts == map[] && detectionTimeline == [] && log == []
    {
      isDetecting := false;
      detector := new Detector.DetectionController(config);
      emailSent := false;
      mailStyle := Gray;
      detectionCounts := map[];
      detectionTimeline := [];
      log := [];
      new;
      StartDetection();
    }

    method StartDetection()
      requires Valid()
      modifies this, detector
      ensures Valid() && isDetecting
      ensures old(Mirror()) ==> Mirror()
      ensures detector.Flags() == if old(isDetecting) then old(detector.Flags()) else Detector.StartFlags(old(detector.Flags()))
      ensures Mail() == old(Mail()) && detectionCounts == old(detectionCounts)
      ensures detectionTimeline == old(detectionTimeline) && log == old(log)
    {
      if !isDetecting {
        isDetecting := true;
        detector.Start();
      }
    }

    method StopDetection()
      requires Valid()
      modifies this, detector
      ensures Valid() && !isDetecting
      ensures old(Mirror()) ==> Mirror()
      ensures detector.Flags() == if old(isDetecting) then Detector.StopFlags(old(detector.Flags())) else old(detector.Flags())
      ensures Mail() == old(Mail()) && detectionCounts == old(detectionCounts)
      ensures detectionTimeline == old(detectionTimeline) && log == old(log)
    {
      if isDetecting {
        isDetecting := false;
        detector.Stop();
      }
    }

    method ToggleMailAlertNow()
      modifies this
      ensures Mail() == ToggleMailAlert(old(Mail()))
      ensures isDetecting == old(isDetecting) && detectionCounts == old(detectionCounts)
      ensures detectionTimeline == old(detectionTimeline) && log == old(log)
    {
      if !emailSent {
        if mailStyle == Gray {
          mailStyle := Blue;
        } else {
          mailStyle := Gray;
        }
      }
    }

    /** `_update_charts`. */
    method UpdateChartsNow(d: Detection)
      requires Charted(detectionCounts, detectionTimeline)
      modifies this`detectionCounts, this`detectionTimeline
      ensures Charted(detectionCounts, detectionTimeline)
      ensures Charts(detectionCounts, detectionTimeline) == UpdateCharts(Charts(old(detectionCounts), old(detectionTimeline)), d)
    {
      UpdateChartsKeepsCharted(Charts(detectionCounts, detectionTimeline), d);
      if d.cls != "" {
        if d.cls != NO_DETECTION {
          detectionCounts := detectionCounts[d.cls := (if d.cls in detectionCounts then detectionCounts[d.cls] else 0) + 1];
        }
        detectionTimeline := detectionTimeline + [Entry(d.timestamp, d.cls)];
      }
    }

    /** `update_gui_with_result` without the image display: the log line, the
        charts, the saved-detections refresh (which raises on a bad file name,
        and then skips the rest) and the mail branch. */
    method UpdateGuiWithResult(d: Detection, savedFiles: seq<string>, parse: string -> Option<int>, outcome: SendOutcome)
      returns (attempted: bool)
      requires Valid()
      modifies this
      ensures Valid()
      ensures log == old(log) + [LogEntry(d)]
      ensures Charts(detectionCounts, detectionTimeline) == UpdateCharts(Charts(old(detectionCounts), old(detectionTimeline)), d)
      ensures var refreshed := !HasBadConfidence(savedFiles, parse);
              && attempted == (refreshed && WantsSend(old(Mail()), d.cls))
              && Mail() == if refreshed then MailOnResult(old(Mail()), d.cls, outcome).alert else old(Mail())
      ensures isDetecting == old(isDetecting) && detector.Flags() == old(detector.Flags())
    {
      attempted := false;
      log := log + [LogEntry(d)];
      UpdateChartsNow(d);
      var shown := CreateSavedDetections(savedFiles, parse);
      if shown.None? {
        return;
      }
      attempted := MailOnResultNow(d.cls, outcome);
    }

    /** The mail branch of `update_gui_with_result`. */
    method MailOnResultNow(cls: string, outcome: SendOutcome) returns (attempted: bool)
      modifies this`emailSent, this`mailStyle
      ensures attempted == WantsSend(old(Mail()), cls)
      ensures Mail() == MailOnResult(old(Mail()), cls, outcome).alert
    {
      attempted := false;
      if cls == VVEL && !emailSent && mailStyle == Blue {
        attempted := true;
        if outcome == Sent {
          mailStyle := Gray;
          emailSent := true;
        }
      }
    }
  }

  /** A window launched with a negative capture interval: the detector's
      first pass hands over its frame and then ends the thread, since the
      sleep raises outside the loop's handler. `is_detecting` stays true, so
      START does nothing and detection does not run again. */
  method ThreadEndedStartDoesNothing(config: Detector.Config, src: Detector.FrameSource)
    returns (detecting: bool, running: bool)
    requires config.captureInterval < 0
    ensures detecting && !running
  {
    var gui := new VespcvGui(config);
    var _, _ := gui.detector.LoopPass(src);
    gui.StartDetection();
    detecting := gui.isDetecting;
    running := gui.detector.IsRunningNow();
  }
}
