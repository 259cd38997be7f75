/** Deduplication of tool calls in one live session (live.ts, lines 162-171). */
module ToolCalls {
  import opened Common

  const KEPT := 200

  /** An entry of the stored list, which the code does not trust to be strings. */
  datatype Entry = Str(id: string) | Other

  function Strings(entries: seq<Entry>): seq<Entry> {
    if entries == [] then []
    else (if entries[0].Str? then [entries[0]] else []) + Strings(entries[1..])
  }

  function Ids(ids: seq<string>): (es: seq<Entry>)
    ensures |es| == |ids|
  {
    seq(|ids|, i requires 0 <= i < |ids| => Str(ids[i]))
  }

  lemma {:induction false} StringsOfIds(ids: seq<string>)
    ensures Strings(Ids(ids)) == Ids(ids)
  {
    if ids != [] {
      assert Ids(ids)[1..] == Ids(ids[1..]);
      StringsOfIds(ids[1..]);
    }
  }

  /** Two acceptances of one id have at least KEPT others between them. */
  ghost predicate SpacedApart(accepted: seq<string>) {
    forall i, j :: 0 <= i < j < |accepted| && accepted[i] == accepted[j] ==> j - i > KEPT
  }

  class ToolSession {
    var processedToolCallIds: seq<Entry>
    ghost var accepted: seq<string>  // ids of the calls executed so far

    ghost predicate Valid()
      reads this
    {
      processedToolCallIds == Ids(LastN(accepted, KEPT)) && SpacedApart(accepted)
    }

    constructor ()
      ensures Valid() && accepted == []
    {
      processedToolCallIds, accepted := [], [];
    }

    /** The answer is 409 exactly when the id is among the last 200 accepted; a call without
        an id always executes and leaves no trace. */
    method Handle(toolCallId: Option<string>) returns (executed: bool)
      requires Valid()
      modifies this
      ensures Valid()
      ensures executed <==> toolCallId.None? || toolCallId.value !in LastN(old(accepted), KEPT)
      ensures accepted == old(accepted) + if executed && toolCallId.Some? then [toolCallId.value] else []
    {
      if toolCallId.None? {
        return true;
      }
      var id := toolCallId.value;
      ghost var kept := LastN(accepted, KEPT);
      StringsOfIds(kept);
      if Str(id) in processedToolCallIds {
        var i :| 0 <= i < |processedToolCallIds| && processedToolCallIds[i] == Str(id);
        assert kept[i] == id;
        return false;
      }
      assert id !in kept by {
        assert forall i :: 0 <= i < |kept| ==> Ids(kept)[i] == Str(kept[i]);
      }
      SpacedPush(accepted, id);
      LastNPush(accepted, id, KEPT);
      IdsPush(kept, id);
      processedToolCallIds := LastN(Strings(processedToolCallIds) + [Str(id)], KEPT);
      accepted := accepted + [id];
      executed := true;
    }
  }

  lemma SpacedPush(accepted: seq<string>, id: string)
    requires SpacedApart(accepted) && id !in LastN(accepted, KEPT)
    ensures SpacedApart(accepted + [id])
  {
    var n, kept := |accepted|, LastN(accepted, KEPT);
    forall i | 0 <= i < n && n - i <= KEPT ensures accepted[i] != id {
      assert kept[i - (n - |kept|)] == accepted[i];
    }
  }

  lemma IdsPush(kept: seq<string>, id: string)
    ensures LastN(Ids(kept) + [Str(id)], KEPT) == Ids(LastN(kept + [id], KEPT))
  {
  }

  /** The stored ids never repeat. */
  lemma KeptWithoutRepeats(accepted: seq<string>)
    requires SpacedApart(accepted)
    ensures
      var kept := LastN(accepted, KEPT);
      forall i, j :: 0 <= i < j < |kept| ==> kept[i] != kept[j]
  {
  }

  /** An id is refused until 200 others have been accepted after it, and not any longer. */
  lemma RememberedFor200(accepted: seq<string>, id: string, others: seq<string>)
    requires id !in others
    ensures id in LastN(accepted + [id] + others, KEPT) <==> |others| < 200
  {
    var all := accepted + [id] + others;
    var kept := LastN(all, KEPT);
    if |others| < 200 {
      assert kept[|kept| - 1 - |others|] == id;
    } else {
      assert forall i :: 0 <= i < |kept| ==> kept[i] == others[|others| - |kept| + i];
    }
  }
}
