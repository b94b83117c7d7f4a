/** The detection controller: the reduction of one frame's boxes to a single
    decision, the handling of one frame, and the start/stop/pause flags that
    drive the background loop. Confidences are integers on an abstract scale
    (for example hundredths); the camera, the model and the thread itself are
    inputs. */
module Detector {
  import opened Wrappers

  /** The class id singled out by the reducer and the label it reports for it. */
  const PRIORITY_CLASS: nat := 3
  const PRIORITY_LABEL := "vvel"
  /** The class reported when no box survives the threshold. */
  const NO_DETECTION := "no_detection"
  /** The loop's sleep while paused, in milliseconds. */
  const PAUSE_TICK: nat := 100

  /** One row of the model's box tensor: corners, confidence and class id. */
  datatype Box = Box(x1: int, y1: int, x2: int, y2: int, conf: int, cls: nat)

  /** The decision dictionary `{class, confidence, timestamp}`. */
  datatype Decision = Decision(cls: string, confidence: int, timestamp: string)

  /** The configuration keys the controller reads. `captureInterval` is the
      configured `capture_interval` expressed in milliseconds (the
      configuration gives seconds); nothing keeps it from being negative. */
  datatype Config = Config(confThreshold: int, classNames: map<nat, string>, captureInterval: int)

  // ---------------------------------------------------------------------------
  // Specification of the decision reducer. Each function consumes the boxes in
  // order, the last one last, as the loop over the box list does.
  // ---------------------------------------------------------------------------

  /** The boxes whose confidence is strictly above the threshold, in order. */
  function Surviving(boxes: seq<Box>, threshold: int): (s: seq<Box>)
    ensures |s| <= |boxes|
  {
    if boxes == [] then []
    else
      var last := boxes[|boxes| - 1];
      var rest := Surviving(boxes[..|boxes| - 1], threshold);
      if last.conf > threshold then rest + [last] else rest
  }

  /** A box counts exactly when its confidence is strictly above the threshold. */
  lemma {:induction false} SurvivingMembers(boxes: seq<Box>, threshold: int)
    ensures forall b :: b in Surviving(boxes, threshold) <==> b in boxes && b.conf > threshold
  {
    if boxes != [] {
      var p := boxes[..|boxes| - 1];
      SurvivingMembers(p, threshold);
      assert boxes == p + [boxes[|boxes| - 1]];
    }
  }

  /** Some box of `s` has class `c`. */
  predicate HasClass(s: seq<Box>, c: nat) {
    s != [] && (s[|s| - 1].cls == c || HasClass(s[..|s| - 1], c))
  }

  lemma {:induction false} HasClassIff(s: seq<Box>, c: nat)
    ensures HasClass(s, c) <==> exists i :: 0 <= i < |s| && s[i].cls == c
  {
    if s != [] {
      var p := s[..|s| - 1];
      HasClassIff(p, c);
      assert forall i :: 0 <= i < |p| ==> p[i] == s[i];
    }
  }

  /** Number of boxes of class `c`; positive exactly when the class occurs. */
  function Count(s: seq<Box>, c: nat): (n: nat)
    ensures n > 0 <==> HasClass(s, c)
  {
    if s == [] then 0
    else Count(s[..|s| - 1], c) + (if s[|s| - 1].cls == c then 1 else 0)
  }

  /** The class ids of `s`, each once, in the order in which they first occur:
      the key order of the per-class counting dictionary. */
  function Classes(s: seq<Box>): (order: seq<nat>)
    ensures forall c :: c in order <==> HasClass(s, c)
  {
    if s == [] then []
    else
      var rest := Classes(s[..|s| - 1]);
      var last := s[|s| - 1].cls;
      if last in rest then rest else rest + [last]
  }

  /** The running maximum `max(max_conf, conf)` started from 0. */
  function MaxConf(s: seq<Box>): (m: int)
    ensures m >= 0
  {
    if s == [] then 0
    else
      var last := s[|s| - 1];
      var rest := MaxConf(s[..|s| - 1]);
      if last.conf > rest then last.conf else rest
  }

  /** The running maximum bounds every confidence and, unless it is the initial
      0, is one of them. */
  lemma {:induction false} MaxConfBounds(s: seq<Box>)
    ensures forall b :: b in s ==> b.conf <= MaxConf(s)
    ensures MaxConf(s) == 0 || exists b :: b in s && b.conf == MaxConf(s)
  {
    if s != [] {
      var p := s[..|s| - 1];
      MaxConfBounds(p);
      assert s == p + [s[|s| - 1]];
    }
  }

  /** `max(counts.items(), key=count)`: the first key, in `order`, whose count
      no key before it reaches and no key after it beats. */
  function Winner(order: seq<nat>, s: seq<Box>): (w: nat)
    requires order != []
    ensures w in order
    ensures forall c :: c in order ==> Count(s, c) <= Count(s, w)
  {
    if |order| == 1 then order[0]
    else
      var prefix := order[..|order| - 1];
      var last := order[|order| - 1];
      assert order == prefix + [last];
      var best := Winner(prefix, s);
      if Count(s, last) > Count(s, best) then last else best
  }

  /** The scan keeps the first key of maximal count: every key before it has a
      strictly smaller count. */
  lemma {:induction false} WinnerIsFirstMaximal(order: seq<nat>, s: seq<Box>) returns (k: nat)
    requires order != []
    ensures k < |order| && order[k] == Winner(order, s)
    ensures forall j :: 0 <= j < k ==> Count(s, order[j]) < Count(s, order[k])
  {
    if |order| == 1 {
      k := 0;
    } else {
      var prefix := order[..|order| - 1];
      var last := order[|order| - 1];
      var best := Winner(prefix, s);
      var k' := WinnerIsFirstMaximal(prefix, s);
      if Count(s, last) > Count(s, best) {
        k := |order| - 1;
        forall j | 0 <= j < k
          ensures Count(s, order[j]) < Count(s, order[k])
        {
          assert order[j] == prefix[j] && prefix[j] in prefix;
        }
      } else {
        k := k';
        assert order[k] == prefix[k];
        forall j | 0 <= j < k
          ensures Count(s, order[j]) < Count(s, order[k])
        {
          assert order[j] == prefix[j];
        }
      }
    }
  }

  /** Some box of `s` has a class id the class-name table lacks: looking its
      name up raises. */
  predicate HasUnnamedClass(s: seq<Box>, classNames: map<nat, string>) {
    s != [] && (s[|s| - 1].cls !in classNames || HasUnnamedClass(s[..|s| - 1], classNames))
  }

  lemma {:induction false} HasUnnamedClassIff(s: seq<Box>, classNames: map<nat, string>)
    ensures HasUnnamedClass(s, classNames) <==> exists b :: b in s && b.cls !in classNames
  {
    if s != [] {
      var p := s[..|s| - 1];
      HasUnnamedClassIff(p, classNames);
      assert s == p + [s[|s| - 1]];
    }
  }

  /** Without unnamed classes every class that occurs has a name. */
  lemma {:induction false} OccurringClassIsNamed(s: seq<Box>, c: nat, classNames: map<nat, string>)
    requires HasClass(s, c) && !HasUnnamedClass(s, classNames)
    ensures c in classNames
  {
    if s[|s| - 1].cls != c {
      OccurringClassIsNamed(s[..|s| - 1], c, classNames);
    }
  }

  /** The decision for one frame, or None when the class-name lookup raises. */
  function Decide(boxes: seq<Box>, threshold: int, classNames: map<nat, string>, timestamp: string): (r: Option<Decision>)
    ensures r.None? <==> HasUnnamedClass(Surviving(boxes, threshold), classNames)
    ensures r.Some? ==> r.value.timestamp == timestamp
    ensures r.Some? && Surviving(boxes, threshold) == [] ==> r.value == Decision(NO_DETECTION, 0, timestamp)
    ensures r.Some? && Surviving(boxes, threshold) != [] ==> r.value.confidence == MaxConf(Surviving(boxes, threshold))
  {
    var s := Surviving(boxes, threshold);
    if HasUnnamedClass(s, classNames) then None
    else if s == [] then Some(Decision(NO_DETECTION, 0, timestamp))
    else if HasClass(s, PRIORITY_CLASS) then Some(Decision(PRIORITY_LABEL, MaxConf(s), timestamp))
    else
      assert HasClass(s, s[|s| - 1].cls);
      var w := Winner(Classes(s), s);
      OccurringClassIsNamed(s, w, classNames);
      Some(Decision(classNames[w], MaxConf(s), timestamp))
  }

  // ---------------------------------------------------------------------------
  // The reducer as the source writes it: one pass over the boxes that updates a
  // counting dictionary, the class-3 flag and the running maximum, then a
  // second pass over the dictionary for the most frequent class.
  // ---------------------------------------------------------------------------

  /** The loop's variables agree with the specification functions on the
      boxes counted so far. */
  ghost predicate Tallied(surv: seq<Box>, counts: map<nat, nat>, order: seq<nat>, class3Detected: bool, maxConf: int)
  {
    && order == Classes(surv)
    && (forall c :: c in counts <==> c in order)
    && (forall c :: c in counts ==> counts[c] == Count(surv, c))
    && class3Detected == HasClass(surv, PRIORITY_CLASS)
    && maxConf == MaxConf(surv)
  }

  /** Counting one more surviving box, as the loop body does, keeps the tally. */
  lemma TallyStep(surv: seq<Box>, counts: map<nat, nat>, order: seq<nat>, class3Detected: bool, maxConf: int, b: Box,
                  counts': map<nat, nat>, order': seq<nat>, class3Detected': bool, maxConf': int)
    requires Tallied(surv, counts, order, class3Detected, maxConf)
    requires counts' == counts[b.cls := (if b.cls in counts then counts[b.cls] else 0) + 1]
    requires order' == if b.cls in order then order else order + [b.cls]
    requires class3Detected' == (class3Detected || b.cls == PRIORITY_CLASS)
    requires maxConf' == if maxConf > b.conf then maxConf else b.conf
    ensures Tallied(surv + [b], counts', order', class3Detected', maxConf')
  {
    AppendBox(surv, b);
    CountsStep(counts, surv, b);
  }

  /** The first pass: the loop over the box tensor that fills the counting
      dictionary, sets the class-3 flag and keeps the running maximum. It stops
      (`ok` false) where the class-name lookup of a surviving box raises. */
  method CountBoxes(boxes: seq<Box>, threshold: int, classNames: map<nat, string>)
    returns (ok: bool, counts: map<nat, nat>, order: seq<nat>, class3Detected: bool, maxConf: int)
    ensures ok <==> !HasUnnamedClass(Surviving(boxes, threshold), classNames)
    ensures ok ==> Tallied(Surviving(boxes, threshold), counts, order, class3Detected, maxConf)
  {
    counts := map[];
    order := [];  // the dictionary's key order
    class3Detected := false;
    maxConf := 0;
    ghost var surv: seq<Box> := [];  // the boxes counted so far
    var i := 0;
    while i < |boxes|
      invariant 0 <= i <= |boxes|
      invariant surv == Surviving(boxes[..i], threshold)
      invariant Tallied(surv, counts, order, class3Detected, maxConf)
      invariant !HasUnnamedClass(surv, classNames)
    {
      var b := boxes[i];
      SurvivingExtends(boxes, i, threshold);
      if b.conf > threshold {
        if b.cls !in classNames {
          SurvivingMembers(boxes, threshold);
          HasUnnamedClassIff(Surviving(boxes, threshold), classNames);
          return false, counts, order, class3Detected, maxConf;
        }
        ghost var counts0, order0, class3Detected0, maxConf0 := counts, order, class3Detected, maxConf;
        counts := counts[b.cls := (if b.cls in counts then counts[b.cls] else 0) + 1];
        if b.cls !in order {
          order := order + [b.cls];
        }
        if b.cls == PRIORITY_CLASS {
          class3Detected := true;
        }
        maxConf := if maxConf > b.conf then maxConf else b.conf;
        TallyStep(surv, counts0, order0, class3Detected0, maxConf0, b, counts, order, class3Detected, maxConf);
        surv := surv + [b];
      }
      i := i + 1;
    }
    assert boxes[..i] == boxes;
    ok := true;
  }

  /** `_process_detections`: the first pass, then the choice of label. A
      lookup that raises surfaces as None. */
  method ProcessDetections(boxes: seq<Box>, threshold: int, classNames: map<nat, string>, timestamp: string)
    returns (r: Option<Decision>)
    ensures r == Decide(boxes, threshold, classNames, timestamp)
  {
    var ok, counts, order, class3Detected, maxConf := CountBoxes(boxes, threshold, classNames);
    if !ok {
      // the table lookup raised; the frame handler turns that into None
      return None;
    }
    ghost var surv := Surviving(boxes, threshold);
    if counts != map[] {
      var best := MostDetected(order, counts, surv);
      OccurringClassIsNamed(surv, best, classNames);
      var finalClass := if class3Detected then PRIORITY_LABEL else classNames[best];
      r := Some(Decision(finalClass, maxConf, timestamp));
    } else {
      if surv != [] {
        assert HasClass(surv, surv[|surv| - 1].cls);
      }
      r := Some(Decision(NO_DETECTION, 0, timestamp));
    }
  }

  /** `max(counts.items(), key=lambda x: x[1])`: a scan of the keys in order that
      replaces the best key only by one with a strictly higher count. */
  method MostDetected(order: seq<nat>, counts: map<nat, nat>, ghost s: seq<Box>) returns (best: nat)
    requires order != []
    requires forall c :: c in order ==> c in counts && counts[c] == Count(s, c)
    ensures best == Winner(order, s)
  {
    best := order[0];
    var j := 1;
    while j < |order|
      invariant 1 <= j <= |order|
      invariant best == Winner(order[..j], s)
    {
      assert order[..j + 1][..j] == order[..j];
      if counts[order[j]] > counts[best] {
        best := order[j];
      }
      j := j + 1;
    }
    assert order[..j] == order;
  }

  /** The surviving boxes of a one-longer prefix. */
  lemma SurvivingExtends(boxes: seq<Box>, i: nat, threshold: int)
    requires i < |boxes|
    ensures Surviving(boxes[..i + 1], threshold)
            == Surviving(boxes[..i], threshold) + (if boxes[i].conf > threshold then [boxes[i]] else [])
  {
    assert boxes[..i + 1][..i] == boxes[..i];
  }

  /** The dictionary update `counts[c] = counts.get(c, 0) + 1` keeps the counts exact. */
  lemma CountsStep(counts: map<nat, nat>, s: seq<Box>, b: Box)
    requires forall c :: c in counts ==> counts[c] == Count(s, c)
    requires b.cls !in counts ==> Count(s, b.cls) == 0
    ensures var next := counts[b.cls := (if b.cls in counts then counts[b.cls] else 0) + 1];
            forall c :: c in next ==> next[c] == Count(s + [b], c)
  {
    AppendBox(s, b);
  }

  /** How one more box changes the counts, the key order and the maximum. */
  lemma AppendBox(s: seq<Box>, b: Box)
    ensures forall c :: Count(s + [b], c) == Count(s, c) + (if b.cls == c then 1 else 0)
    ensures Classes(s + [b]) == if b.cls in Classes(s) then Classes(s) else Classes(s) + [b.cls]
    ensures MaxConf(s + [b]) == if b.conf > MaxConf(s) then b.conf else MaxConf(s)
  {
    assert (s + [b])[..|s|] == s;
  }

  // ---------------------------------------------------------------------------
  // Properties of the reducer.
  // ---------------------------------------------------------------------------

  /** A box at or below the threshold, wherever it stands, changes nothing. */
  lemma {:induction false} SurvivingSkipsWeakBox(p: seq<Box>, b: Box, q: seq<Box>, threshold: int)
    requires b.conf <= threshold
    ensures Surviving(p + [b] + q, threshold) == Surviving(p + q, threshold)
  {
    if q == [] {
      assert p + [b] + q == p + [b];
      assert (p + [b])[..|p|] == p;
      assert p + q == p;
    } else {
      var q' := q[..|q| - 1];
      var last := q[|q| - 1];
      SurvivingSkipsWeakBox(p, b, q', threshold);
      assert (p + [b] + q)[..|p + [b] + q| - 1] == p + [b] + q';
      assert (p + q)[..|p + q| - 1] == p + q';
    }
  }

  /** Hence the decision ignores such a box too. */
  lemma WeakBoxIgnored(p: seq<Box>, b: Box, q: seq<Box>, threshold: int, classNames: map<nat, string>, timestamp: string)
    requires b.conf <= threshold
    ensures Decide(p + [b] + q, threshold, classNames, timestamp) == Decide(p + q, threshold, classNames, timestamp)
  {
    SurvivingSkipsWeakBox(p, b, q, threshold);
  }

  /** A surviving class-3 box forces the label "vvel", whatever the other classes
      and their counts; the confidence is still the maximum over all survivors. */
  lemma PriorityClassOverrides(boxes: seq<Box>, threshold: int, classNames: map<nat, string>, timestamp: string, b: Box)
    requires b in boxes && b.conf > threshold && b.cls == PRIORITY_CLASS
    requires !HasUnnamedClass(Surviving(boxes, threshold), classNames)
    ensures Decide(boxes, threshold, classNames, timestamp)
            == Some(Decision(PRIORITY_LABEL, MaxConf(Surviving(boxes, threshold)), timestamp))
  {
    var s := Surviving(boxes, threshold);
    SurvivingMembers(boxes, threshold);
    assert b in s;
    var i :| 0 <= i < |s| && s[i] == b;
    HasClassIff(s, PRIORITY_CLASS);
  }

  /** Index of the first box of class `c`. */
  function FirstIndex(s: seq<Box>, c: nat): (i: nat)
    requires HasClass(s, c)
    ensures i < |s| && s[i].cls == c
    ensures forall j :: 0 <= j < i ==> s[j].cls != c
  {
    var p := s[..|s| - 1];
    if HasClass(p, c) then FirstIndex(p, c)
    else
      HasClassIff(p, c);
      |s| - 1
  }

  /** The key order of the counting dictionary is the order of first occurrence. */
  lemma {:induction false} ClassesInFirstSeenOrder(s: seq<Box>, j: nat, k: nat)
    requires j < k < |Classes(s)|
    ensures FirstIndex(s, Classes(s)[j]) < FirstIndex(s, Classes(s)[k])
  {
    var p := s[..|s| - 1];
    var cj, ck := Classes(s)[j], Classes(s)[k];
    var rest := Classes(p);
    assert Classes(s) == rest || Classes(s) == rest + [s[|s| - 1].cls];
    assert cj == rest[j] && cj in rest;
    if HasClass(p, ck) {
      ClassesInFirstSeenOrder(p, j, k);
    }
  }

  /** Of the classes tied for the most boxes, the dictionary scan keeps the one
      seen first. */
  lemma TieGoesToFirstSeen(s: seq<Box>, c: nat)
    requires HasClass(s, c)
    ensures var w := Winner(Classes(s), s);
            Count(s, c) == Count(s, w) ==> FirstIndex(s, w) <= FirstIndex(s, c)
  {
    var order := Classes(s);
    var w := Winner(order, s);
    var k := WinnerIsFirstMaximal(order, s);
    assert c in order;
    var j :| 0 <= j < |order| && order[j] == c;
    if Count(s, c) == Count(s, w) {
      if j > k {
        ClassesInFirstSeenOrder(s, k, j);
      } else {
        assert j == k;
      }
    }
  }

  /** Without a surviving class-3 box the label is that of the class with the
      most surviving boxes; among classes with equally many boxes the one seen
      first wins. Confidence plays no part in the choice. */
  lemma MostFrequentClassWins(boxes: seq<Box>, threshold: int, classNames: map<nat, string>, timestamp: string)
    returns (w: nat)
    requires Surviving(boxes, threshold) != []
    requires !HasUnnamedClass(Surviving(boxes, threshold), classNames)
    requires !HasClass(Surviving(boxes, threshold), PRIORITY_CLASS)
    ensures var s := Surviving(boxes, threshold);
            && HasClass(s, w)
            && w in classNames
            && Decide(boxes, threshold, classNames, timestamp) == Some(Decision(classNames[w], MaxConf(s), timestamp))
            && (forall i :: 0 <= i < |s| ==> Count(s, s[i].cls) <= Count(s, w))
            && (forall i :: 0 <= i < |s| && Count(s, s[i].cls) == Count(s, w) ==> FirstIndex(s, w) <= i)
  {
    var s := Surviving(boxes, threshold);
    assert HasClass(s, s[|s| - 1].cls);
    w := Winner(Classes(s), s);
    OccurringClassIsNamed(s, w, classNames);
    forall i | 0 <= i < |s|
      ensures Count(s, s[i].cls) <= Count(s, w)
      ensures Count(s, s[i].cls) == Count(s, w) ==> FirstIndex(s, w) <= i
    {
      var c := s[i].cls;
      HasClassIff(s, c);
      assert c in Classes(s);
      TieGoesToFirstSeen(s, c);
    }
  }

  /** The reported confidence is the highest over every surviving box, of any
      class, and (for a threshold at or above zero) is one of them. */
  lemma ConfidenceIsGlobalMaximum(boxes: seq<Box>, threshold: int, classNames: map<nat, string>, timestamp: string)
    requires Decide(boxes, threshold, classNames, timestamp).Some?
    ensures var d := Decide(boxes, threshold, classNames, timestamp).value;
            && (forall b :: b in boxes && b.conf > threshold ==> b.conf <= d.confidence)
            && (threshold >= 0 && Surviving(boxes, threshold) != [] ==>
                  exists b :: b in boxes && b.conf > threshold && b.conf == d.confidence)
  {
    var s := Surviving(boxes, threshold);
    SurvivingMembers(boxes, threshold);
    MaxConfBounds(s);
    if threshold >= 0 && s != [] {
      assert s[0] in s;
    }
  }

  /** An instance where the winning class is not the one holding the highest
      confidence: class 1 has two boxes at 50 and 60, class 0 one box at 90;
      the label is class 1's and the confidence 90, class 0's. */
  lemma CountBeatsConfidence()
    ensures var boxes := [Box(0, 0, 1, 1, 90, 0), Box(0, 0, 1, 1, 50, 1), Box(0, 0, 1, 1, 60, 1)];
            Decide(boxes, 25, map[0 := "vcra", 1 := "other"], "t") == Some(Decision("other", 90, "t"))
  {
    var b0, b1, b2 := Box(0, 0, 1, 1, 90, 0), Box(0, 0, 1, 1, 50, 1), Box(0, 0, 1, 1, 60, 1);
    var s1, s2, s3 := [b0], [b0, b1], [b0, b1, b2];
    assert s3[..2] == s2 && s2[..1] == s1 && s1[..0] == [];
    assert Surviving(s1, 25) == s1;
    assert Surviving(s2, 25) == s2;
    assert Surviving(s3, 25) == s3;
    assert Count(s1, 0) == 1 && Count(s1, 1) == 0;
    assert Count(s2, 0) == 1 && Count(s2, 1) == 1;
    assert Count(s3, 0) == 1 && Count(s3, 1) == 2;
    assert Classes(s1) == [0];
    assert Classes(s2) == [0, 1];
    assert Classes(s3) == [0, 1];
    assert MaxConf(s1) == 90 && MaxConf(s2) == 90 && MaxConf(s3) == 90;
    assert [0, 1][..1] == [0];
    assert Winner([0, 1], s3) == 1;
    assert !HasClass(s3, PRIORITY_CLASS);
    var names := map[0 := "vcra", 1 := "other"];
    assert 0 in names && 1 in names;
    assert !HasUnnamedClass(s1, names);
    assert !HasUnnamedClass(s2, names);
    assert !HasUnnamedClass(s3, names);
  }

  // ---------------------------------------------------------------------------
  // One frame: capture, load, infer, reduce, save.
  // ---------------------------------------------------------------------------

  /** What the frame's external collaborators returned: the capture path (None
      when capture returned nothing), whether that file exists, whether the
      image loaded, the model's boxes (None when inference raised), the path
      the annotated image was saved to (None when saving failed), and the clock. */
  datatype FrameSource = FrameSource(
    capturedPath: Option<string>,
    pathExists: bool,
    imageLoads: bool,
    inference: Option<seq<Box>>,
    annotatedPath: Option<string>,
    timestamp: string)

  /** The frame result `{image_path, detection}`. */
  datatype FrameResult = FrameResult(imagePath: Option<string>, detection: Decision)

  /** The capture succeeded and yielded a readable image with boxes. */
  predicate FrameReady(src: FrameSource) {
    && src.capturedPath.Some? && src.capturedPath.value != "" && src.pathExists
    && src.imageLoads && src.inference.Some?
  }

  /** The processing of one frame; None stands for every path that logs an error
      and returns None, the raised lookup included. */
  function ProcessSingleFrame(src: FrameSource, config: Config): (r: Option<FrameResult>)
    ensures r.Some? <==> FrameReady(src)
                         && !HasUnnamedClass(Surviving(src.inference.value, config.confThreshold), config.classNames)
    ensures r.Some? ==> r.value.imagePath == src.annotatedPath
                        && Some(r.value.detection)
                           == Decide(src.inference.value, config.confThreshold, config.classNames, src.timestamp)
  {
    if src.capturedPath.None? || src.capturedPath.value == "" || !src.pathExists then None
    else if !src.imageLoads then None
    else if src.inference.None? then None
    else
      match Decide(src.inference.value, config.confThreshold, config.classNames, src.timestamp)
      case None => None
      case Some(d) => Some(FrameResult(src.annotatedPath, d))
  }

  /** A frame in which nothing survives still yields a result: the decision
      dictionary is never empty, so the "no detections" decision is emitted. */
  lemma NoDetectionStillEmitted(src: FrameSource, config: Config)
    requires FrameReady(src)
    requires Surviving(src.inference.value, config.confThreshold) == []
    ensures ProcessSingleFrame(src, config)
            == Some(FrameResult(src.annotatedPath, Decision(NO_DETECTION, 0, src.timestamp)))
  {
  }

  // ---------------------------------------------------------------------------
  // The run flags: `_thread`, `_stop_event`, `_pause_event`.
  // ---------------------------------------------------------------------------

  /** The worker thread: never created, alive, or finished. */
  datatype ThreadState = NoThread | Alive | Finished

  datatype RunFlags = RunFlags(thread: ThreadState, stopSet: bool, pauseSet: bool)

  /** `start`: a fresh thread with both flags cleared when none is alive,
      otherwise a resume that only clears pause. */
  function StartFlags(f: RunFlags): (r: RunFlags)
    ensures r.thread == Alive && !r.pauseSet
    ensures f.thread != Alive ==> !r.stopSet
    ensures f.thread == Alive ==> r.stopSet == f.stopSet
  {
    if f.thread != Alive then RunFlags(Alive, false, false) else f.(pauseSet := false)
  }

  /** `stop`: pause only; the thread and the stop flag are untouched. */
  function StopFlags(f: RunFlags): (r: RunFlags)
    ensures r.pauseSet && r.thread == f.thread && r.stopSet == f.stopSet
  {
    f.(pauseSet := true)
  }

  /** `is_running`. */
  predicate IsRunning(f: RunFlags) {
    f.thread == Alive && !f.pauseSet
  }

  /** `shutdown`: set stop, then wait for the thread; the loop leaves only when
      it sees stop, so after the join the thread is finished. */
  function ShutdownFlags(f: RunFlags): (r: RunFlags)
    ensures r.stopSet && r.pauseSet == f.pauseSet && r.thread != Alive
    ensures r.thread == NoThread <==> f.thread == NoThread
  {
    RunFlags(if f.thread == NoThread then NoThread else Finished, true, f.pauseSet)
  }

  /** `stop` followed by `start` on a live thread resumes it: no new thread,
      and the state is the one before `stop` with pause cleared. */
  lemma StopThenStartResumes(f: RunFlags)
    requires f.thread == Alive
    ensures StartFlags(StopFlags(f)) == f.(pauseSet := false)
    ensures IsRunning(StartFlags(StopFlags(f)))
  {
  }

  /** After `shutdown`, nothing runs until a new `start`, which starts a new thread. */
  lemma ShutdownThenStartRestarts(f: RunFlags)
    ensures !IsRunning(ShutdownFlags(f))
    ensures StartFlags(ShutdownFlags(f)) == RunFlags(Alive, false, false)
  {
  }

  /** What one pass of `_detection_loop` does. */
  datatype LoopStep = Exit | Paused | Processed(result: Option<FrameResult>)

  /** One pass of the loop: leave when stop is set, sleep when paused,
      otherwise process one frame and hand a result, if any, to the callback.
      A failure while processing the frame or in the callback is caught; the
      sleep that follows is outside that handler (see `EndsThread`). */
  function Step(f: RunFlags, src: FrameSource, config: Config): (r: LoopStep)
    ensures r.Exit? <==> f.stopSet
    ensures r.Paused? <==> !f.stopSet && f.pauseSet
    ensures r.Processed? ==> r.result == ProcessSingleFrame(src, config)
  {
    if f.stopSet then Exit
    else if f.pauseSet then Paused
    else Processed(ProcessSingleFrame(src, config))
  }

  /** Whether a pass ends the thread: when it sees stop, or when the sleep
      after a processed frame is asked for a negative length, which raises
      outside the loop's handler. */
  predicate EndsThread(step: LoopStep, config: Config) {
    step.Exit? || (step.Processed? && config.captureInterval < 0)
  }

  /** The time, in milliseconds, the loop sleeps after a pass: the pause tick
      while paused and the configured interval, unadjusted, after a processed
      frame; nothing when the pass ends the thread. */
  function SleepAfter(step: LoopStep, config: Config): (ms: nat)
    ensures step.Paused? ==> ms == PAUSE_TICK
    ensures step.Processed? && config.captureInterval >= 0 ==> ms == config.captureInterval
    ensures EndsThread(step, config) ==> ms == 0
  {
    match step
    case Exit => 0
    case Paused => PAUSE_TICK
    case Processed(_) => if config.captureInterval < 0 then 0 else config.captureInterval
  }

  /** The controller object with its three fields. The thread is abstract:
      `LoopStep` is one pass of its loop, run by the live thread. */
  class DetectionController {
    var thread: ThreadState
    var stopSet: bool
    var pauseSet: bool
    const config: Config
    /** Number of threads created so far. */
    ghost var spawned: nat

    function Flags(): RunFlags
      reads this
    {
      RunFlags(thread, stopSet, pauseSet)
    }

    constructor (config: Config)
      ensures Flags() == RunFlags(NoThread, false, false) && this.config == config && spawned == 0
    {
      this.config := config;
      thread := NoThread;
      stopSet := false;
      pauseSet := false;
      spawned := 0;
    }

    method Start()
      modifies this
      ensures Flags() == StartFlags(old(Flags()))
      ensures spawned == if old(thread) == Alive then old(spawned) else old(spawned) + 1
    {
      if thread != Alive {
        stopSet := false;
        pauseSet := false;
        thread := Alive;
        spawned := spawned + 1;
      } else {
        pauseSet := false;
      }
    }

    method Stop()
      modifies this
      ensures Flags() == StopFlags(old(Flags())) && spawned == old(spawned)
    {
      pauseSet := true;
    }

    method IsRunningNow() returns (running: bool)
      ensures running == IsRunning(Flags())
    {
      running := thread == Alive && !pauseSet;
    }

    /** Sets stop and joins the thread (without a timeout). */
    method Shutdown()
      modifies this
      ensures Flags() == ShutdownFlags(old(Flags())) && spawned == old(spawned)
    {
      stopSet := true;
      if thread == Alive {
        // the join returns once the loop has seen the stop flag and left
        thread := Finished;
      }
    }

    /** One pass of the live thread's loop; returns what it handed to the
        callback and how long it then sleeps, in milliseconds. */
    method LoopPass(src: FrameSource) returns (emitted: Option<FrameResult>, sleepMs: nat)
      requires thread == Alive
      modifies this
      ensures var step := Step(old(Flags()), src, config);
              && (thread == Finished <==> EndsThread(step, config))
              && (thread == Alive <==> !EndsThread(step, config))
              && stopSet == old(stopSet) && pauseSet == old(pauseSet) && spawned == old(spawned)
              && emitted == (if step.Processed? then step.result else None)
              && sleepMs == SleepAfter(step, config)
    {
      emitted, sleepMs := None, 0;
      if stopSet {
        thread := Finished;
        return;
      }
      if pauseSet {
        sleepMs := PAUSE_TICK;
        return;
      }
      emitted := ProcessSingleFrame(src, config);
      if config.captureInterval < 0 {
        // `time.sleep` raises; nothing catches it and the thread ends
        thread := Finished;
        return;
      }
      sleepMs := config.captureInterval;
    }
  }
}
