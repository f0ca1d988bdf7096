/** The batch resizer: every agent of the project pads its texture in turn,
    the non-null feedbacks are collected, and the user may cancel from the
    progress bar after any texture. */
module TextureResizer {
  import opened Wrappers
  import opened ResizeFeedback
  import opened ResizeAgents

  /** How many agents run when `cancel[i]` is the progress bar's answer
      after agent i: all of them, or up to and including the first one
      after which the user cancelled. */
  function StopAfter(cancel: seq<bool>): (n: nat)
    ensures n <= |cancel|
    ensures |cancel| > 0 ==> n > 0
    ensures forall j :: 0 <= j < n - 1 ==> !cancel[j]
    ensures n < |cancel| ==> cancel[n - 1]
    decreases |cancel|
  {
    if |cancel| == 0 then 0
    else if cancel[0] then 1
    else 1 + StopAfter(cancel[1..])
  }

  /** Without a cancellation every agent runs. */
  lemma {:induction false} StopAfterNoCancel(cancel: seq<bool>)
    requires forall j :: 0 <= j < |cancel| ==> !cancel[j]
    ensures StopAfter(cancel) == |cancel|
    decreases |cancel|
  {
    if |cancel| > 0 {
      var rest := cancel[1..];
      assert forall j :: 0 <= j < |rest| ==> !rest[j] by {
        forall j | 0 <= j < |rest| ensures !rest[j] { assert rest[j] == cancel[j + 1]; }
      }
      StopAfterNoCancel(rest);
    }
  }

  /** When the first cancellation comes after agent i, that agent still
      runs and no later one does. */
  lemma {:induction false} StopAfterFirstCancel(cancel: seq<bool>, i: nat)
    requires i < |cancel| && cancel[i]
    requires forall j :: 0 <= j < i ==> !cancel[j]
    ensures StopAfter(cancel) == i + 1
    decreases i
  {
    if i > 0 {
      assert !cancel[0];
      var rest := cancel[1..];
      assert forall j :: 0 <= j < i - 1 ==> !rest[j] by {
        forall j | 0 <= j < i - 1 ensures !rest[j] { assert rest[j] == cancel[j + 1]; }
      }
      StopAfterFirstCancel(rest, i - 1);
    }
  }

  class TextureResizer {
    /** The agents of the textures found in the searched folders; None once
        disposed. */
    var agents: Option<seq<TextureResizeAgent>>

    /** The agent list is what the folder search and the agent factory
        produce; that factory is not part of this model. */
    constructor (agents: seq<TextureResizeAgent>)
      ensures this.agents == Some(agents)
    {
      this.agents := Some(agents);
    }

    /** Run the agents in order. `results[i]` is what agent i's
        ResizeToMultipleOf4 returns and `cancel[i]` the progress bar's
        answer after it. The feedbacks are the non-null results of the
        agents that ran, in agent order. `ran` is not part of the source's
        result: it is a trace of the agent indices the loop visits, recorded
        from the loop's own counter, so its length is how many agents ran
        before the first cancel. */
    method ResizeToMultipleOf4(results: seq<Option<TextureResizeFeedback>>, cancel: seq<bool>)
      returns (feedbacks: seq<TextureResizeFeedback>, ran: seq<nat>)
      requires agents.Some? && |results| == |agents.value| && |cancel| == |agents.value|
      ensures |ran| == StopAfter(cancel) && forall k :: 0 <= k < |ran| ==> ran[k] == k
      ensures feedbacks == Somes(results[..StopAfter(cancel)])
      ensures |feedbacks| <= |ran|
    {
      feedbacks := [];
      ran := [];
      var i := 0;
      while i < |agents.value|
        invariant 0 <= i <= |agents.value|
        invariant forall j :: 0 <= j < i ==> !cancel[j]
        invariant |ran| == i && forall k :: 0 <= k < i ==> ran[k] == k
        invariant feedbacks == Somes(results[..i])
      {
        var feedback := results[i];
        ran := ran + [i];
        if feedback.Some? {
          feedbacks := feedbacks + [feedback.value];
        }
        assert results[..i + 1][..i] == results[..i];
        if cancel[i] {
          StopAfterFirstCancel(cancel, i);
          return;
        }
        i := i + 1;
      }
      StopAfterNoCancel(cancel);
    }

    /** Dispose every agent, then drop the list; nothing happens when it is
        already gone. */
    method Dispose()
      modifies this`agents
      modifies if agents.Some? then set a | a in agents.value else {}
      ensures agents == None
      ensures old(agents).Some? ==>
                forall a :: a in old(agents).value ==>
                  a.value == null && a.importer == None && a.settings == None && a.platformSettings == None
    {
      if agents.Some? {
        var list := agents.value;
        var i := 0;
        while i < |list|
          invariant 0 <= i <= |list|
          invariant agents == Some(list)
          invariant forall j :: 0 <= j < i ==>
                      list[j].value == null && list[j].importer == None &&
                      list[j].settings == None && list[j].platformSettings == None
        {
          list[i].Dispose();
          i := i + 1;
        }
        agents := None;
      }
    }
  }
}
