/** The older batch driver: every data agent pads its texture in turn and
    the non-null feedbacks are collected. */
module TextureProcessor {
  import opened Wrappers
  import opened DataAgents

  class TextureProcessor {
    var textureAgents: seq<TextureAgent>

    /** The agent list is what the folder search and CreataAgents
        produce. */
    constructor (agents: seq<TextureAgent>)
      ensures textureAgents == agents
    {
      textureAgents := agents;
    }

    /** Run every agent once, in order; `results[i]` is what agent i's
        ResizeToMultipleOf4 returns. The feedbacks are the non-null results
        in agent order, so there are no more of them than agents. `ran` is
        not part of the source's result: it is a trace of the agent indices
        the loop visits, recorded from the loop's own counter. */
    method ResizeToMultipleOf4(results: seq<Option<ProcessedFeedback>>)
      returns (feedbacks: seq<ProcessedFeedback>, ran: seq<nat>)
      requires |results| == |textureAgents|
      ensures |ran| == |textureAgents| && forall k :: 0 <= k < |ran| ==> ran[k] == k
      ensures feedbacks == Somes(results)
      ensures |feedbacks| <= |textureAgents|
      ensures forall f :: f in feedbacks <==> Some(f) in results
    {
      feedbacks := [];
      ran := [];
      var i := 0;
      while i < |textureAgents|
        invariant 0 <= i <= |textureAgents|
        invariant |ran| == i && forall k :: 0 <= k < i ==> ran[k] == k
        invariant feedbacks == Somes(results[..i])
      {
        var feedback := results[i];
        ran := ran + [i];
        if feedback.Some? {
          feedbacks := feedbacks + [feedback.value];
        }
        assert results[..i + 1][..i] == results[..i];
        i := i + 1;
      }
      assert results[..i] == results;
      forall f ensures f in feedbacks <==> Some(f) in results {
        SomesMembers(results, f);
      }
    }
  }
}
