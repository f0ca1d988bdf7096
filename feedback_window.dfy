/** The feedback window's bookkeeping: the memory totals over the list of
    resize feedbacks and the clamped window of at most 50 rows shown from
    it. */
module FeedbackWindow {
  import opened Wrappers
  import opened ResizeFeedback

  /** The six running totals the window shows (raw, resized and saved
      storage and runtime memory). */
  datatype Totals = Totals(rawStorage: int, rawRuntime: int, storage: int, runtime: int,
                           savedStorage: int, savedRuntime: int)
  {
    /** Each saved total is its raw total minus its resized total. */
    predicate Balanced() {
      savedStorage == rawStorage - storage && savedRuntime == rawRuntime - runtime
    }
  }

  const Zero := Totals(0, 0, 0, 0, 0, 0)

  function Plus(t: Totals, u: Totals): Totals {
    Totals(t.rawStorage + u.rawStorage, t.rawRuntime + u.rawRuntime,
           t.storage + u.storage, t.runtime + u.runtime,
           t.savedStorage + u.savedStorage, t.savedRuntime + u.savedRuntime)
  }

  /** One feedback's contribution to the totals. */
  function Contribution(f: TextureResizeFeedback): (t: Totals)
    ensures t.Balanced()
  {
    Totals(f.rawStorageMemory, f.rawRuntimeMemory, f.storageMemory, f.runtimeMemory,
           f.SavedStorageMemory(), f.SavedRuntimeMemory())
  }

  /** The totals after adding every feedback of `fs` to `start`, in order:
      what CalculateTotal leaves in the six total fields. */
  function Accumulate(start: Totals, fs: seq<TextureResizeFeedback>): Totals
    decreases |fs|
  {
    if |fs| == 0 then start
    else Plus(Accumulate(start, fs[..|fs| - 1]), Contribution(fs[|fs| - 1]))
  }

  /** The totals of a feedback list, counted from zero. */
  function TotalsOf(fs: seq<TextureResizeFeedback>): Totals {
    Accumulate(Zero, fs)
  }

  /** Accumulating adds the list's own totals to whatever was there. */
  lemma {:induction false} AccumulateAdds(start: Totals, fs: seq<TextureResizeFeedback>)
    ensures Accumulate(start, fs) == Plus(start, TotalsOf(fs))
    decreases |fs|
  {
    if |fs| > 0 {
      AccumulateAdds(start, fs[..|fs| - 1]);
    }
  }

  /** Counted from zero, every saved total is the raw total minus the
      resized total. */
  lemma {:induction false} TotalsBalanced(fs: seq<TextureResizeFeedback>)
    ensures TotalsOf(fs).Balanced()
    decreases |fs|
  {
    if |fs| > 0 {
      TotalsBalanced(fs[..|fs| - 1]);
    }
  }

  /** The window keeps its totals between openings and OpenWindow only adds
      to them. So when a second resize run over other textures opens the
      window that is still open, the totals are the first run's plus the
      second's, although the window lists only the second run; they differ
      from the list's own totals whenever the first run counted anything. */
  lemma RerunKeepsEarlierTotals(first: seq<TextureResizeFeedback>, second: seq<TextureResizeFeedback>)
    ensures Accumulate(TotalsOf(first), second) == Plus(TotalsOf(first), TotalsOf(second))
    ensures TotalsOf(first) != Zero ==> Accumulate(TotalsOf(first), second) != TotalsOf(second)
  {
    AccumulateAdds(TotalsOf(first), second);
  }

  /** A first run padding one texture of 100 bytes of raw storage, then a
      second run padding another of 50: the window lists only the second,
      whose own raw-storage total is 50, and shows 150. */
  lemma RerunExample()
    ensures var f := TextureResizeFeedback("Assets/a.png", 100, 400, 120, 512, 30, 30, 32, 32);
            var g := TextureResizeFeedback("Assets/b.jpg", 50, 200, 60, 256, 15, 15, 16, 16);
            TotalsOf([g]).rawStorage == 50 && Accumulate(TotalsOf([f]), [g]).rawStorage == 150
  {
    var f := TextureResizeFeedback("Assets/a.png", 100, 400, 120, 512, 30, 30, 32, 32);
    var g := TextureResizeFeedback("Assets/b.jpg", 50, 200, 60, 256, 15, 15, 16, 16);
    assert [f][..0] == [] && [g][..0] == [];
    assert Accumulate(Zero, [f][..0]) == Zero && Accumulate(Zero, [g][..0]) == Zero;
    var once := TotalsOf([f]);
    assert once == Plus(Zero, Contribution(f));
    assert TotalsOf([g]) == Plus(Zero, Contribution(g));
    assert Accumulate(once, [g][..0]) == once;
    assert Accumulate(once, [g]) == Plus(once, Contribution(g));
  }

  /** The IndexStart setter: the start is pulled back so that a full
      window fits, then raised to 0. */
  function ClampStart(v: int, count: nat, show: nat): (start: int) {
    var s := if v + show > count then count - show else v;
    if s < 0 then 0 else s
  }

  /** The end of the window: `show` rows after the start, cut at the
      count. */
  function WindowEnd(start: int, count: nat, show: nat): (end: int) {
    var e := start + show;
    if e > count then count else e
  }

  /** Whatever start is asked for, the window lies within the list and
      holds min(show, count) rows; the start is v itself whenever a full
      window fits there. */
  lemma WindowBounds(v: int, count: nat, show: nat)
    ensures var s := ClampStart(v, count, show);
            var e := WindowEnd(s, count, show);
            0 <= s <= e <= count &&
            e - s == (if show < count then show else count) &&
            (0 <= v && v + show <= count ==> s == v)
  {
  }

  class ResizeFeedbackWindow {
    /** Rows shown at once. */
    const showNumber: nat
    var feedbacks: seq<TextureResizeFeedback>
    var totals: Totals
    var indexStart: int
    var indexCount: int

    /** The shown rows lie within the list. */
    ghost predicate Windowed()
      reads this
    {
      0 <= indexStart <= indexCount <= |feedbacks|
    }

    constructor ()
      ensures showNumber == 50 && feedbacks == [] && totals == Zero
      ensures indexStart == 0 && indexCount == 0 && Windowed()
    {
      showNumber := 50;
      feedbacks := [];
      totals := Zero;
      indexStart := 0;
      indexCount := 0;
    }

    /** The IndexStart setter, step by step as the source assigns it. */
    method SetIndexStart(v: int)
      modifies this`indexStart, this`indexCount
      ensures indexStart == ClampStart(v, |feedbacks|, showNumber)
      ensures indexCount == WindowEnd(indexStart, |feedbacks|, showNumber)
      ensures Windowed()
    {
      indexStart := v;
      if indexStart + showNumber > |feedbacks| {
        indexStart := |feedbacks| - showNumber;
      }
      if indexStart < 0 {
        indexStart := 0;
      }
      indexCount := indexStart + showNumber;
      if indexCount > |feedbacks| {
        indexCount := |feedbacks|;
      }
      WindowBounds(v, |feedbacks|, showNumber);
    }

    /** Add every feedback's six fields to the six totals. */
    method CalculateTotal()
      modifies this`totals
      ensures totals == Accumulate(old(totals), feedbacks)
    {
      var i := 0;
      while i < |feedbacks|
        invariant 0 <= i <= |feedbacks|
        invariant totals == Accumulate(old(totals), feedbacks[..i])
      {
        assert feedbacks[..i + 1][..i] == feedbacks[..i];
        totals := Plus(totals, Contribution(feedbacks[i]));
        i := i + 1;
      }
      assert feedbacks[..i] == feedbacks;
    }

    /** Show a feedback list: nothing happens for a missing or empty list;
        otherwise the window takes the list, starts at row 0 and shows the
        list's totals. The totals are reset before they are counted, so
        they are the list's own and each saved total is its raw total
        minus its resized total. */
    method OpenWindow(list: Option<seq<TextureResizeFeedback>>)
      modifies this`feedbacks, this`totals, this`indexStart, this`indexCount
      ensures list.None? || |list.value| == 0 ==>
                feedbacks == old(feedbacks) && totals == old(totals) &&
                indexStart == old(indexStart) && indexCount == old(indexCount)
      ensures list.Some? && |list.value| > 0 ==>
                feedbacks == list.value && totals == TotalsOf(list.value) && totals.Balanced() &&
                indexStart == 0 && indexCount == WindowEnd(0, |list.value|, showNumber) && Windowed()
    {
      if list.None? || |list.value| <= 0 {
        return;
      }
      feedbacks := list.value;
      SetIndexStart(0);
      totals := Zero;
      CalculateTotal();
      assert totals == TotalsOf(list.value);
      TotalsBalanced(list.value);
    }

    /** The rows the detail view lists: every index from IndexStart up to
        IndexCount, once each, in order. */
    method VisibleRows() returns (rows: seq<nat>)
      requires Windowed()
      ensures |rows| == indexCount - indexStart
      ensures forall k :: 0 <= k < |rows| ==> rows[k] == indexStart + k && rows[k] < |feedbacks|
    {
      rows := [];
      var i := indexStart;
      while i < indexCount
        invariant indexStart <= i <= indexCount
        invariant |rows| == i - indexStart
        invariant forall k :: 0 <= k < |rows| ==> rows[k] == indexStart + k
      {
        rows := rows + [i];
        i := i + 1;
      }
    }
  }
}
