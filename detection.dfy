/**
 * The per-frame decision logic of the detection loop: which predictions are
 * drawn, which one produces the spoken proximity warning, and the gate that
 * decides whether that warning is spoken now.
 *
 * Scores and box dimensions are modelled as exact reals.
 */
module Detection {
  import opened Wrappers

  /** A detector box: left, top, width and height in pixels (`bbox[0..3]`). */
  datatype BBox = BBox(x: real, y: real, width: real, height: real)

  /** One prediction returned by the object detector. */
  datatype Prediction = Prediction(cls: string, score: real, bbox: BBox)

  /** An element the frame adds to the live view: the highlight rectangle or its text label. */
  datatype OverlayEntry =
    | Highlighter(box: BBox)
    | Label(cls: string, score: real, box: BBox)

  /** Predictions scoring at most this are neither drawn nor announced. */
  const MIN_SCORE: real := 0.66

  /** A box whose pixel area exceeds this counts as near. */
  const WARNING_THRESHOLD: real := 150.0

  /** A message may be repeated once more than this many milliseconds have passed. */
  const REPEAT_INTERVAL: int := 7000

  predicate Qualifies(p: Prediction) {
    p.score > MIN_SCORE
  }

  /** The proximity proxy: the area of the box. */
  function BoxSize(p: Prediction): real {
    p.bbox.width * p.bbox.height
  }

  predicate IsNear(p: Prediction) {
    BoxSize(p) > WARNING_THRESHOLD
  }

  /** A prediction that produces a warning: drawn and near. */
  predicate Alerting(p: Prediction) {
    Qualifies(p) && IsNear(p)
  }

  /** The shape of every proximity warning: "Warning: ", a class name, " is near". */
  predicate IsWarningText(m: string) {
    |m| >= 17 && m[..9] == "Warning: " && m[|m| - 8..] == " is near"
  }

  /** The warning for an object of class `cls`. */
  function NearMessage(cls: string): (m: string)
    ensures m != "" && IsWarningText(m)
    ensures |m| == |cls| + 17
    ensures m[9..9 + |cls|] == cls
  {
    "Warning: " + cls + " is near"
  }

  /** Two warnings are equal exactly when they name the same class. */
  lemma NearMessageInjective(c1: string, c2: string)
    requires NearMessage(c1) == NearMessage(c2)
    ensures c1 == c2
  {
    assert c1 == NearMessage(c1)[9..9 + |c1|];
  }

  /**
   * The effect of one prediction on the frame's pending message: a person
   * branch, then a generic branch, and otherwise the message is kept.
   */
  function StepMessage(msg: string, p: Prediction): string {
    if !Qualifies(p) then msg
    else if p.cls == "person" && BoxSize(p) > WARNING_THRESHOLD then "Warning: person is near"
    else if BoxSize(p) > WARNING_THRESHOLD then "Warning: " + p.cls + " is near"
    else msg
  }

  /** The person branch yields the same text as the generic one. */
  lemma StepMessageUniform(msg: string, p: Prediction)
    ensures StepMessage(msg, p) == if Alerting(p) then NearMessage(p.cls) else msg
  {
    if Alerting(p) && p.cls == "person" {
      assert "Warning: person is near" == "Warning: " + "person" + " is near";
    }
  }

  /** The message after the predictions `ps` were processed in order, starting from none. */
  function FrameMessage(ps: seq<Prediction>): (m: string)
    ensures m == "" || IsWarningText(m)
    decreases |ps|
  {
    if |ps| == 0 then ""
    else
      var pending := FrameMessage(ps[..|ps| - 1]);
      StepMessageUniform(pending, ps[|ps| - 1]);
      StepMessage(pending, ps[|ps| - 1])
  }

  /** The drawn entries for one prediction: its highlighter, then its label. */
  function Entries(p: Prediction): seq<OverlayEntry> {
    if Qualifies(p) then [Highlighter(p.bbox), Label(p.cls, p.score, p.bbox)] else []
  }

  /** The overlay after the predictions `ps` were processed in order, starting from an empty list. */
  function Overlay(ps: seq<Prediction>): (o: seq<OverlayEntry>)
    ensures |o| % 2 == 0 && |o| <= 2 * |ps|
    ensures forall k :: 0 <= k < |o| ==> (o[k].Highlighter? <==> k % 2 == 0)
    decreases |ps|
  {
    if |ps| == 0 then [] else Overlay(ps[..|ps| - 1]) + Entries(ps[|ps| - 1])
  }

  /** The predictions that pass the confidence filter, in prediction order. */
  function Qualifying(ps: seq<Prediction>): (q: seq<Prediction>)
    ensures |q| <= |ps|
    ensures forall i :: 0 <= i < |q| ==> Qualifies(q[i])
    ensures forall p :: p in ps && Qualifies(p) ==> p in q
    ensures forall p :: p in q ==> p in ps
    decreases |ps|
  {
    if |ps| == 0 then []
    else
      var front := ps[..|ps| - 1];
      assert forall p :: p in front ==> p in ps;
      assert forall p :: p in ps ==> p in front || p == ps[|ps| - 1];
      Qualifying(front) + (if Qualifies(ps[|ps| - 1]) then [ps[|ps| - 1]] else [])
  }

  /**
   * Filtering a concatenation filters each part and keeps them in order, so
   * the filter keeps the confident predictions in their original order.
   */
  lemma {:induction false} QualifyingAppend(a: seq<Prediction>, b: seq<Prediction>)
    ensures Qualifying(a + b) == Qualifying(a) + Qualifying(b)
    decreases |b|
  {
    if |b| == 0 {
      assert a + b == a;
    } else {
      var front := b[..|b| - 1];
      var last := b[|b| - 1];
      QualifyingAppend(a, front);
      SplitLast(a, b);
      QualifyingSnoc(a + front, last);
      QualifyingSnoc(front, last);
      AppendAssoc(Qualifying(a), Qualifying(front), if Qualifies(last) then [last] else []);
    }
  }

  /** A non-empty `b` is its front followed by its last element, also after a prefix `a`. */
  lemma {:induction false} SplitLast(a: seq<Prediction>, b: seq<Prediction>)
    requires |b| > 0
    ensures b == b[..|b| - 1] + [b[|b| - 1]]
    ensures a + b == (a + b[..|b| - 1]) + [b[|b| - 1]]
  {
  }

  /** Concatenation is associative. */
  lemma {:induction false} AppendAssoc(x: seq<Prediction>, y: seq<Prediction>, z: seq<Prediction>)
    ensures (x + y) + z == x + (y + z)
  {
  }

  /** Filtering a list extended by one prediction extends the filtered list by that prediction when it is confident. */
  lemma {:induction false} QualifyingSnoc(ps: seq<Prediction>, p: Prediction)
    ensures Qualifying(ps + [p]) == Qualifying(ps) + (if Qualifies(p) then [p] else [])
  {
    assert (ps + [p])[..|ps + [p]| - 1] == ps;
  }

  /**
   * The filter keeps every confident prediction as often as it occurs, and
   * no other prediction.
   */
  lemma {:induction false} QualifyingCounts(ps: seq<Prediction>)
    ensures forall p :: multiset(Qualifying(ps))[p] == if Qualifies(p) then multiset(ps)[p] else 0
    decreases |ps|
  {
    if |ps| > 0 {
      var front := ps[..|ps| - 1];
      var last := ps[|ps| - 1];
      QualifyingCounts(front);
      assert ps == front + [last];
      var tail := if Qualifies(last) then [last] else [];
      assert Qualifying(ps) == Qualifying(front) + tail;
      assert multiset(Qualifying(ps)) == multiset(Qualifying(front)) + multiset(tail);
      assert multiset(ps) == multiset(front) + multiset{last};
    }
  }

  /** The filter keeps a single prediction exactly when it is confident. */
  lemma QualifyingSingle(p: Prediction)
    ensures Qualifying([p]) == if Qualifies(p) then [p] else []
  {
    assert [p][..0] == [];
  }

  /**
   * Reference definition of the winner: the index of the last alerting
   * prediction, if there is one.
   */
  function LastAlert(ps: seq<Prediction>): (r: Option<nat>)
    ensures r.None? ==> forall k :: 0 <= k < |ps| ==> !Alerting(ps[k])
    ensures r.Some? ==> r.value < |ps| && Alerting(ps[r.value])
    ensures r.Some? ==> forall k :: r.value < k < |ps| ==> !Alerting(ps[k])
    decreases |ps|
  {
    if |ps| == 0 then None
    else if Alerting(ps[|ps| - 1]) then Some(|ps| - 1)
    else
      var front := ps[..|ps| - 1];
      assert forall k :: 0 <= k < |front| ==> front[k] == ps[k];
      LastAlert(front)
  }

  /**
   * The frame's message is the warning of the last alerting prediction, and
   * empty when no prediction alerts; a later drawn but far prediction does not
   * clear it.
   */
  lemma {:induction false} FrameMessageIsLastAlert(ps: seq<Prediction>)
    ensures LastAlert(ps).None? ==> FrameMessage(ps) == ""
    ensures LastAlert(ps).Some? ==> FrameMessage(ps) == NearMessage(ps[LastAlert(ps).value].cls)
    decreases |ps|
  {
    if |ps| > 0 {
      var front := ps[..|ps| - 1];
      FrameMessageIsLastAlert(front);
      StepMessageUniform(FrameMessage(front), ps[|ps| - 1]);
    }
  }

  /** The frame's message is empty exactly when no prediction alerts. */
  lemma FrameMessageEmptyIff(ps: seq<Prediction>)
    ensures FrameMessage(ps) == "" <==> forall k :: 0 <= k < |ps| ==> !Alerting(ps[k])
  {
    FrameMessageIsLastAlert(ps);
  }

  /** A non-empty frame message is the warning for a confident, near prediction of the frame. */
  lemma FrameMessageFromPrediction(ps: seq<Prediction>)
    ensures FrameMessage(ps) == "" || exists p :: p in ps && Alerting(p) && FrameMessage(ps) == NearMessage(p.cls)
  {
    FrameMessageIsLastAlert(ps);
    if LastAlert(ps).Some? {
      assert ps[LastAlert(ps).value] in ps;
    }
  }

  /** Predictions at or below the confidence cut-off never affect the message. */
  lemma {:induction false} FrameMessageIgnoresUnconfident(ps: seq<Prediction>)
    ensures FrameMessage(ps) == FrameMessage(Qualifying(ps))
    decreases |ps|
  {
    if |ps| > 0 {
      var front := ps[..|ps| - 1];
      var last := ps[|ps| - 1];
      FrameMessageIgnoresUnconfident(front);
      if Qualifies(last) {
        var q := Qualifying(front) + [last];
        assert q[..|q| - 1] == Qualifying(front);
      } else {
        assert Qualifying(ps) == Qualifying(front);
      }
    }
  }

  /** Predictions at or below the confidence cut-off add no overlay entry. */
  lemma {:induction false} OverlayIgnoresUnconfident(ps: seq<Prediction>)
    ensures Overlay(ps) == Overlay(Qualifying(ps))
    decreases |ps|
  {
    if |ps| > 0 {
      var front := ps[..|ps| - 1];
      var last := ps[|ps| - 1];
      OverlayIgnoresUnconfident(front);
      if Qualifies(last) {
        var q := Qualifying(front) + [last];
        assert q[..|q| - 1] == Qualifying(front);
      } else {
        assert Qualifying(ps) == Qualifying(front);
      }
    }
  }

  /**
   * The overlay holds exactly two entries per confident prediction, in
   * prediction order: the highlighter at an even position, its label right after.
   */
  lemma {:induction false} OverlayShape(ps: seq<Prediction>)
    ensures |Overlay(ps)| == 2 * |Qualifying(ps)|
    ensures forall k :: 0 <= k < |Qualifying(ps)| ==>
      Overlay(ps)[2 * k] == Highlighter(Qualifying(ps)[k].bbox) &&
      Overlay(ps)[2 * k + 1] == Label(Qualifying(ps)[k].cls, Qualifying(ps)[k].score, Qualifying(ps)[k].bbox)
    decreases |ps|
  {
    if |ps| > 0 {
      var front := ps[..|ps| - 1];
      var last := ps[|ps| - 1];
      OverlayShape(front);
      var qf := Qualifying(front);
      assert Overlay(ps) == Overlay(front) + Entries(last);
      assert Qualifying(ps) == qf + (if Qualifies(last) then [last] else []);
      assert forall k :: 0 <= k < |qf| ==> Qualifying(ps)[k] == qf[k];
    }
  }

  /**
   * The debounce gate: a message is spoken when it is non-empty and either
   * differs from the last one spoken or the last speech is more than
   * REPEAT_INTERVAL milliseconds old.
   */
  predicate ShouldSpeak(message: string, lastSpoken: string, lastSpokenTime: int, now: int) {
    message != "" && (message != lastSpoken || now - lastSpokenTime > REPEAT_INTERVAL)
  }

  /** Right after speaking `m` at time `t`, `m` is suppressed until more than 7000 ms have passed. */
  lemma RepeatSuppressed(m: string, t: int, now: int)
    ensures ShouldSpeak(m, m, t, now) <==> m != "" && now > t + 7000
  {
  }

  /** A different non-empty message is spoken at once, whatever the time. */
  lemma ChangedMessageSpoken(m: string, last: string, t: int, now: int)
    requires m != "" && m != last
    ensures ShouldSpeak(m, last, t, now)
  {
  }
}
