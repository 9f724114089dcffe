/** The StatsView widget as an object: the fields it keeps, the frame it
    draws from them, and the animator it restarts whenever data is set. */
module Views {
  import opened RingChart

  /** The part of android.animation.ValueAnimator that StatsView relies on:
      a run from `from` to `to`, its current animated value, whether it was
      started or cancelled, how many update listeners it notifies on every
      new value, and how many lifecycle listeners (Animator.AnimatorListener
      and pause listeners) it keeps. */
  class Animator {
    const from: real
    const to: real
    var value: real
    var started: bool
    var cancelled: bool
    var updateListeners: nat
    var animatorListeners: nat

    /** A run that still delivers updates to a listener. */
    predicate Live()
      reads this
    {
      started && !cancelled && updateListeners > 0
    }

    /** A cancelled run: it produces no new value again, even though its
        update listeners stay registered. */
    predicate Stopped()
      reads this
    {
      cancelled
    }

    /** ValueAnimator.ofFloat(from, to) */
    constructor OfFloat(from: real, to: real)
      ensures this.from == from && this.to == to && value == from
      ensures !started && !cancelled && updateListeners == 0 && animatorListeners == 0
    {
      this.from, this.to := from, to;
      value := from;
      started, cancelled := false, false;
      updateListeners, animatorListeners := 0, 0;
    }

    method AddUpdateListener()
      modifies this`updateListeners
      ensures updateListeners == old(updateListeners) + 1
    {
      updateListeners := updateListeners + 1;
    }

    /** start() without a start delay sets the value to `from` at once and
        hands it to every update listener before it returns; the listener's
        own effect is applied by its owner, as in StatsView.ReInvalidate. */
    method Start()
      modifies this`started, this`value
      ensures started && value == from
    {
      started := true;
      value := from;
    }

    /** Cancelling again changes nothing. */
    method Cancel()
      modifies this`cancelled
      ensures cancelled
    {
      cancelled := true;
    }

    /** Animator.removeAllListeners(): drops the lifecycle and pause
        listeners; the update listeners are left in place. */
    method RemoveAllListeners()
      modifies this`animatorListeners
      ensures animatorListeners == 0
      ensures updateListeners == old(updateListeners)
    {
      animatorListeners := 0;
    }

    /** One update of a running animation: the animated value moves forward,
        never past the end of the run. */
    method Advance(v: real)
      requires started && !cancelled && value <= v <= to
      modifies this`value
      ensures value == v
    {
      value := v;
    }
  }

  class StatsView {
    const textSize: real
    const lineWidth: int
    const colors: seq<int>
    var data: seq<real>
    var radius: real
    var center: Point
    var oval: Rect
    var animator: Animator?
    var move: real
    /** Every animator this view has created. */
    ghost var runs: set<Animator>

    /** The object invariant: four colour slots, progress within [0, 1], the
        oval a square around the centre, the current animator a live run
        from 0 to 1 with the view's one update listener whose value is the
        progress, and every earlier animator cancelled. */
    ghost predicate Valid()
      reads this, runs
    {
      |colors| == 4 &&
      0.0 <= move <= 1.0 &&
      SquareAround(oval, center, radius) &&
      (animator != null ==>
         animator in runs &&
         animator.from == 0.0 && animator.to == 1.0 &&
         animator.started && !animator.cancelled && animator.updateListeners == 1 &&
         move == animator.value) &&
      (forall a :: a in runs && a != animator ==> a.Stopped())
    }

    /** The view as inflated: text size, stroke width and the four colour
        slots already resolved from the styled attributes (or their
        defaults), no data, no geometry yet and no animator. */
    constructor (textSize: real, lineWidth: int, color1: int, color2: int, color3: int, color4: int)
      ensures Valid()
      ensures this.textSize == textSize && this.lineWidth == lineWidth
      ensures colors == [color1, color2, color3, color4]
      ensures data == [] && move == 0.0 && animator == null && runs == {}
      ensures radius == 0.0 && center == Point(0.0, 0.0) && oval == Rect(0.0, 0.0, 0.0, 0.0)
    {
      this.textSize := textSize;
      this.lineWidth := lineWidth;
      colors := [color1, color2, color3, color4];
      data := [];
      radius := 0.0;
      center := Point(0.0, 0.0);
      oval := Rect(0.0, 0.0, 0.0, 0.0);
      animator := null;
      move := 0.0;
      runs := {};
    }

    /** The data setter: store the values, then restart the animation. */
    method SetData(value: seq<real>)
      requires Valid()
      modifies this, animator
      ensures Valid()
      ensures data == value
      ensures old(animator) != null ==> old(animator).Stopped()
      ensures animator != null && fresh(animator) && runs == old(runs) + {animator}
      ensures animator.Live() && animator.from == 0.0 && animator.to == 1.0 && animator.value == 0.0
      ensures forall a :: a in runs && a.Live() ==> a == animator
      ensures move == 0.0
      ensures radius == old(radius) && center == old(center) && oval == old(oval)
    {
      data := value;
      ReInvalidate();
    }

    /** Cancel the previous animator and drop its lifecycle listeners, then
        start exactly one new run from 0 to 1 with one update listener.
        start() delivers the initial value 0 to that listener at once, so
        the progress is back at 0 when the restart returns. */
    method ReInvalidate()
      requires Valid()
      modifies this, animator
      ensures Valid()
      ensures old(animator) != null ==>
                old(animator).Stopped() && old(animator).animatorListeners == 0 &&
                old(animator).updateListeners == old(animator.updateListeners)
      ensures animator != null && fresh(animator) && runs == old(runs) + {animator}
      ensures animator.Live() && animator.from == 0.0 && animator.to == 1.0 && animator.value == 0.0
      ensures forall a :: a in runs && a.Live() ==> a == animator
      ensures data == old(data) && move == 0.0
      ensures radius == old(radius) && center == old(center) && oval == old(oval)
    {
      if animator != null {
        animator.Cancel();
        animator.RemoveAllListeners();
      }
      var a := new Animator.OfFloat(0.0, 1.0);
      a.AddUpdateListener();
      a.Start();
      move := a.value;  // the update listener, run once inside start()
      animator := a;
      runs := runs + {a};
    }

    /** The update listener: the running animator produced its next value,
        which becomes the progress move. */
    method OnAnimationUpdate(v: real)
      requires Valid() && animator != null && animator.value <= v <= 1.0
      modifies this`move, animator`value
      ensures Valid()
      ensures move == v && animator.value == v
    {
      animator.Advance(v);
      move := animator.value;
    }

    /** A size change recomputes radius, centre and oval. */
    method OnSizeChanged(w: int, h: int)
      requires Valid()
      modifies this`radius, this`center, this`oval
      ensures Valid()
      ensures radius == (if w <= h then w else h) as real / 2.0 - lineWidth as real
      ensures center == Point(w as real / 2.0, h as real / 2.0)
      ensures Geometry(radius, center, oval) == RingGeometry(w, h, lineWidth)
    {
      radius := (if w <= h then w else h) as real / 2.0 - lineWidth as real;
      center := Point(w as real / 2.0, h as real / 2.0);
      oval := Rect(center.x - radius, center.y - radius, center.x + radius, center.y + radius);
    }

    /** One frame: the track, the segments clipped by the progress, and, if
        the loop ran to its end, the label and possibly the closing cap.
        fallback stands for the random colour drawn for a segment beyond the
        four slots and rotation for the view's own rotation property. */
    method OnDraw(fallback: nat -> int, rotation: real) returns (cmds: seq<Command>)
      requires data == [] || Scalable(data)
      requires |colors| > 0
      ensures cmds == Frame(data, Palette(colors, fallback), move, rotation, oval, center, textSize)
    {
      if data == [] {
        return [];
      }
      BaseNonZero(data);
      var palette := Palette(colors, fallback);
      var startAngle := TopAngle;
      var sequentialRotation := FullCircle * move + startAngle;
      cmds := [BgArc(oval, startAngle, FullCircle)];
      var index := 0;
      while index < |data|
        invariant index <= |data|
        invariant startAngle == StartAngle(data, index)
        invariant index <= StopIndex(data, sequentialRotation, 0)
        invariant cmds == [BgArc(oval, TopAngle, FullCircle)] + SegmentArcs(data, palette, sequentialRotation, oval, index)
      {
        var datum := data[index];
        var rotationAngle := (datum / Base(data)) * FullCircle;
        var sequentialRotationAngle := Min(rotationAngle, sequentialRotation - startAngle);
        cmds := cmds + [Arc(oval, startAngle, sequentialRotationAngle, palette.ColorAt(index))];
        startAngle := startAngle + rotationAngle;
        assert startAngle == StartAngle(data, index + 1);
        if startAngle > sequentialRotation {
          FrameStoppedAt(data, palette, move, rotation, oval, center, textSize, index);
          return;
        }
        assert !StopsAfter(data, sequentialRotation, index);
        index := index + 1;
      }
      FrameRanThrough(data, palette, move, rotation, oval, center, textSize);
      var text := (Sum(data) / Base(data)) * 100.0;
      cmds := cmds + [Label(text, center.x, center.y + textSize / 4.0)];
      if text == 100.0 {
        cmds := cmds + [Arc(oval, startAngle + rotation, 1.0, colors[0])];
      }
    }
  }

  /** Setting data again after a run has completed starts the ring over:
      over a finished run on [1], the example data [500, 500, 500, 0] is
      drawn in its next frame as the track and a first segment of 0
      degrees, without the label. */
  method RestartExample(textSize: real, lineWidth: int, c1: int, c2: int, c3: int, c4: int,
                        fallback: nat -> int, rotation: real) returns (cmds: seq<Command>)
    ensures cmds == [BgArc(Rect(0.0, 0.0, 0.0, 0.0), -90.0, 360.0), Arc(Rect(0.0, 0.0, 0.0, 0.0), -90.0, 0.0, c1)]
  {
    var v := new StatsView(textSize, lineWidth, c1, c2, c3, c4);
    v.SetData([1.0]);
    v.OnAnimationUpdate(1.0);
    var data := [500.0, 500.0, 500.0, 0.0];
    assert Max(data) == 500.0;
    v.SetData(data);
    assert v.move == 0.0;
    cmds := v.OnDraw(fallback, rotation);
    var palette := Palette(v.colors, fallback);
    assert Base(data) == 2000.0;
    assert StartAngle(data, 1) == 0.0;
    FrameStoppedAt(data, palette, 0.0, rotation, v.oval, v.center, v.textSize, 0);
  }
}
