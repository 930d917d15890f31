/**
 The history of a chat: a window of the latest messages, and batches of messages that are summarised. Building
 the prompt, asking the model, embedding its answer and storing it can each throw; a message whose batch
 could not be summarised is then not added to the window.
 */
module ChatHistories {

  datatype Msg = Msg(role: string, content: string)

  /** The two lists of the object, with the story so far: every message offered to `add`, those for which it
      returned, the batches that were summarised, and how many summaries failed. */
  datatype History = History(
    summaryCnt: nat, msgCtxCnt: nat, pending: seq<Msg>, latest: seq<Msg>,
    offered: seq<Msg>, returned: seq<Msg>, batches: seq<seq<Msg>>, failures: nat)

  function Start(summaryCnt: nat, msgCtxCnt: nat): History {
    History(summaryCnt, msgCtxCnt, [], [], [], [], [], 0)
  }

  function Last<T>(s: seq<T>, n: nat): (r: seq<T>)
    ensures |r| == if |s| < n then |s| else n
    ensures forall i :: 0 <= i < |r| ==> r[i] == s[|s| - |r| + i]
  {
    if |s| <= n then s else s[|s| - n..]
  }

  /** Whether `m` completes a batch. */
  predicate Due(h: History) {
    h.summaryCnt > 0 && |h.pending| + 1 >= h.summaryCnt
  }

  /** One call of `add`; `ok` says whether the summary succeeds, if one is due. */
  function Add(h: History, m: Msg, ok: bool): History {
    var h' := h.(offered := h.offered + [m]);
    if Due(h) && !ok then h'.(pending := h.pending + [m], failures := h.failures + 1)
    else
      var shown := h'.(latest := Last(h.latest + [m], h.msgCtxCnt), returned := h.returned + [m]);
      if h.summaryCnt == 0 then shown
      else if Due(h) then shown.(pending := [], batches := h.batches + [h.pending + [m]])
      else shown.(pending := h.pending + [m])
  }

  function Run(h: History, calls: seq<(Msg, bool)>): History {
    if calls == [] then h
    else var before := Run(h, calls[..|calls| - 1]);
         Add(before, calls[|calls| - 1].0, calls[|calls| - 1].1)
  }

  function Messages(calls: seq<(Msg, bool)>): seq<Msg> {
    seq(|calls|, i requires 0 <= i < |calls| => calls[i].0)
  }

  function Flatten<T>(xss: seq<seq<T>>): seq<T> {
    if xss == [] then [] else Flatten(xss[..|xss| - 1]) + xss[|xss| - 1]
  }

  predicate Inv(h: History) {
    && h.latest == Last(h.returned, h.msgCtxCnt)
    && (h.summaryCnt == 0 ==> h.pending == [] && h.batches == [])
    && (h.summaryCnt > 0 ==> Flatten(h.batches) + h.pending == h.offered)
    && (forall i :: 0 <= i < |h.batches| ==> |h.batches[i]| >= h.summaryCnt)
    && (h.failures == 0 ==> h.returned == h.offered)
    && (h.failures == 0 ==> forall i :: 0 <= i < |h.batches| ==> |h.batches[i]| == h.summaryCnt)
    && (h.failures == 0 && h.summaryCnt > 0 ==> |h.pending| < h.summaryCnt)
  }

  lemma LastOfLast<T>(s: seq<T>, x: T, n: nat)
    ensures Last(Last(s, n) + [x], n) == Last(s + [x], n)
  {
  }

  lemma FlattenOneMore<T>(xss: seq<seq<T>>, xs: seq<T>)
    ensures Flatten(xss + [xs]) == Flatten(xss) + xs
  {
    assert (xss + [xs])[..|xss|] == xss;
  }

  lemma Regroup<T>(a: seq<T>, b: seq<T>, x: T)
    ensures a + (b + [x]) == (a + b) + [x] && a + (b + [x]) + [] == (a + b) + [x]
  {
  }

  lemma AddKeepsInv(h: History, m: Msg, ok: bool)
    requires Inv(h)
    ensures Inv(Add(h, m, ok))
  {
    hide Last, Flatten;
    LastOfLast(h.returned, m, h.msgCtxCnt);
    FlattenOneMore(h.batches, h.pending + [m]);
    Regroup(Flatten(h.batches), h.pending, m);
  }

  lemma StartHolds(summaryCnt: nat, msgCtxCnt: nat)
    ensures Inv(Start(summaryCnt, msgCtxCnt))
  {
  }

  lemma AddKeepsOptions(h: History, m: Msg, ok: bool)
    ensures var h' := Add(h, m, ok);
            h'.summaryCnt == h.summaryCnt && h'.msgCtxCnt == h.msgCtxCnt && h'.offered == h.offered + [m]
  {
  }

  /** However often summaries fail: no message is lost or summarised twice, batches are large enough, and the
      window holds the latest of the messages whose `add` returned. */
  lemma {:induction false} NothingIsLost(summaryCnt: nat, msgCtxCnt: nat, calls: seq<(Msg, bool)>)
    ensures var h := Run(Start(summaryCnt, msgCtxCnt), calls);
            && Inv(h) && h.summaryCnt == summaryCnt && h.msgCtxCnt == msgCtxCnt
            && h.offered == Messages(calls)
            && h.latest == Last(h.returned, msgCtxCnt)
            && (summaryCnt > 0 ==> Flatten(h.batches) + h.pending == Messages(calls))
            && forall i :: 0 <= i < |h.batches| ==> |h.batches[i]| >= summaryCnt
  {
    StartHolds(summaryCnt, msgCtxCnt);
    hide Last, Flatten, Add;
    if calls != [] {
      var n := |calls| - 1;
      NothingIsLost(summaryCnt, msgCtxCnt, calls[..n]);
      AddKeepsInv(Run(Start(summaryCnt, msgCtxCnt), calls[..n]), calls[n].0, calls[n].1);
      assert Messages(calls) == Messages(calls[..n]) + [calls[n].0];
      AddKeepsOptions(Run(Start(summaryCnt, msgCtxCnt), calls[..n]), calls[n].0, calls[n].1);
    }
  }

  lemma Distribute(a: nat, n: nat)
    ensures (a + 1) * n == a * n + n
  {
  }

  lemma {:induction false} FlattenLength<T>(xss: seq<seq<T>>, n: nat)
    requires forall k :: 0 <= k < |xss| ==> |xss[k]| == n
    ensures |Flatten(xss)| == |xss| * n
  {
    if xss != [] {
      FlattenLength(xss[..|xss| - 1], n);
      Distribute(|xss| - 1, n);
    }
  }

  lemma {:induction false} ChunkAt<T>(xss: seq<seq<T>>, n: nat, i: nat)
    requires i < |xss| && forall k :: 0 <= k < |xss| ==> |xss[k]| == n
    ensures i * n + n <= |Flatten(xss)| && Flatten(xss)[i * n..i * n + n] == xss[i]
  {
    var last := |xss| - 1;
    if i == last {
      FlattenLength(xss[..last], n);
    } else {
      ChunkAt(xss[..last], n, i);
      var at := i * n;
      assert Flatten(xss)[at..at + n] == Flatten(xss[..last])[at..at + n];
    }
  }

  /** The messages for which `add` returns: no summary was due at their call, or it succeeded. */
  function Shown(summaryCnt: nat, msgCtxCnt: nat, calls: seq<(Msg, bool)>): seq<Msg> {
    if calls == [] then []
    else
      var n := |calls| - 1;
      Shown(summaryCnt, msgCtxCnt, calls[..n]) +
      if calls[n].1 || !Due(Run(Start(summaryCnt, msgCtxCnt), calls[..n])) then [calls[n].0] else []
  }

  /** Every other call has failed. */
  lemma {:induction false} FailuresAreCounted(summaryCnt: nat, msgCtxCnt: nat, calls: seq<(Msg, bool)>)
    ensures |Shown(summaryCnt, msgCtxCnt, calls)| + Run(Start(summaryCnt, msgCtxCnt), calls).failures == |calls|
  {
    if calls != [] {
      FailuresAreCounted(summaryCnt, msgCtxCnt, calls[..|calls| - 1]);
      OneMoreCall(summaryCnt, msgCtxCnt, calls);
    }
  }

  lemma OneMoreCall(summaryCnt: nat, msgCtxCnt: nat, calls: seq<(Msg, bool)>)
    requires calls != []
    ensures var n := |calls| - 1; var before := Run(Start(summaryCnt, msgCtxCnt), calls[..n]);
            && Run(Start(summaryCnt, msgCtxCnt), calls) == Add(before, calls[n].0, calls[n].1)
            && Shown(summaryCnt, msgCtxCnt, calls)
            == Shown(summaryCnt, msgCtxCnt, calls[..n]) + if calls[n].1 || !Due(before) then [calls[n].0] else []
  {
    hide Add;
  }

  /** When no call fails, the messages are cut into batches of exactly `summary_cnt`, and the window holds
      the latest messages. */
  lemma UndisturbedBatches(summaryCnt: nat, msgCtxCnt: nat, calls: seq<(Msg, bool)>, i: nat)
    requires summaryCnt > 0 && |Shown(summaryCnt, msgCtxCnt, calls)| == |calls|
    ensures var h := Run(Start(summaryCnt, msgCtxCnt), calls);
            && h.latest == Last(Messages(calls), msgCtxCnt)
            && |calls| == |h.batches| * summaryCnt + |h.pending| && |h.pending| < summaryCnt
            && (i < |h.batches| ==> i * summaryCnt + summaryCnt <= |calls|
                                    && h.batches[i] == Messages(calls)[i * summaryCnt..i * summaryCnt + summaryCnt])
  {
    NothingIsLost(summaryCnt, msgCtxCnt, calls);
    FailuresAreCounted(summaryCnt, msgCtxCnt, calls);
    var h := Run(Start(summaryCnt, msgCtxCnt), calls);
    hide Run, Start, Last, Flatten;
    FlattenLength(h.batches, summaryCnt);
    if i < |h.batches| {
      ChunkAt(h.batches, summaryCnt, i);
    }
  }

  /** A failed summary takes its message out of the window, but not out of the batch. */
  lemma FailedMessageIsNotShown(h: History, m: Msg)
    requires Inv(h)
    ensures Add(h, m, false).latest == h.latest <==> Due(h) || Last(h.latest + [m], h.msgCtxCnt) == h.latest
    ensures Due(h) ==> Add(h, m, false).pending == h.pending + [m] && Due(Add(h, m, false))
  {
  }

  /** The window holds the last `msg_ctx_cnt` of them, whether or not other calls have failed before. */
  lemma {:induction false} WindowIsLastShown(summaryCnt: nat, msgCtxCnt: nat, calls: seq<(Msg, bool)>)
    ensures Run(Start(summaryCnt, msgCtxCnt), calls).latest == Last(Shown(summaryCnt, msgCtxCnt, calls), msgCtxCnt)
  {
    if calls != [] {
      var n := |calls| - 1;
      WindowIsLastShown(summaryCnt, msgCtxCnt, calls[..n]);
      NothingIsLost(summaryCnt, msgCtxCnt, calls[..n]);
      hide Inv, Flatten, Run, Shown;
      LastOfLast(Shown(summaryCnt, msgCtxCnt, calls[..n]), calls[n].0, msgCtxCnt);
      OneMoreCall(summaryCnt, msgCtxCnt, calls);
    }
  }

  /** A summary is due when, with the message itself, as many messages as make a batch have come since the last
      one that was summarised. */
  lemma DueWhenBatchIsFull(summaryCnt: nat, msgCtxCnt: nat, calls: seq<(Msg, bool)>)
    ensures var h := Run(Start(summaryCnt, msgCtxCnt), calls);
            Due(h) <==> summaryCnt > 0 && |calls| - |Flatten(h.batches)| + 1 >= summaryCnt
  {
    NothingIsLost(summaryCnt, msgCtxCnt, calls);
  }

  class ChatHistory {
    const summaryCnt: nat
    const msgCtxCnt: nat
    var pending: seq<Msg>
    var latest: seq<Msg>
    ghost var story: History

    constructor (summaryCnt: nat, msgCtxCnt: nat)
      ensures Valid() && story == Start(summaryCnt, msgCtxCnt)
    {
      this.summaryCnt, this.msgCtxCnt, pending, latest := summaryCnt, msgCtxCnt, [], [];
      story := Start(summaryCnt, msgCtxCnt);
    }

    ghost predicate Valid()
      reads this
    {
      && story.summaryCnt == summaryCnt && story.msgCtxCnt == msgCtxCnt
      && story.pending == pending && story.latest == latest && Inv(story)
    }

    method AddMessage(role: string, content: string, summaryOk: bool)
      returns (returned: bool, asked: seq<Msg>)
      requires Valid()
      modifies this
      ensures Valid() && story == Add(old(story), Msg(role, content), summaryOk)
      ensures returned <==> summaryOk || summaryCnt == 0 || |old(pending)| + 1 < summaryCnt
      ensures returned ==> latest == Last(old(latest) + [Msg(role, content)], msgCtxCnt)
      ensures !returned ==> latest == old(latest)
      ensures asked == if Due(old(story)) then old(pending) + [Msg(role, content)] else []
      ensures pending == if summaryCnt == 0 then old(pending)
                         else if returned && |old(pending)| + 1 >= summaryCnt then []
                         else old(pending) + [Msg(role, content)]
    {
      hide Inv, Last;
      var m := Msg(role, content);
      AddKeepsInv(story, m, summaryOk);
      returned, asked := SummarizeIfNeeded(m, summaryOk);
      if returned {
        latest := latest + [m];
        Trim();
      }
      story := Add(story, m, summaryOk);
    }

    method Trim()
      modifies this`latest
      ensures latest == Last(old(latest), msgCtxCnt)
    {
      while |latest| > msgCtxCnt
        invariant |latest| <= |old(latest)| && latest == old(latest)[|old(latest)| - |latest|..]
        invariant |latest| >= msgCtxCnt || latest == old(latest)
        decreases |latest|
      {
        latest := latest[1..];
      }
    }

    /** The list of pending messages is cleared only after the batch has been summarised; `asked` is what the model
        is asked to summarise. */
    method SummarizeIfNeeded(m: Msg, summaryOk: bool) returns (returned: bool, asked: seq<Msg>)
      modifies this`pending
      ensures asked == if summaryCnt > 0 && |old(pending)| + 1 >= summaryCnt then old(pending) + [m] else []
      ensures returned <==> summaryOk || summaryCnt == 0 || |old(pending)| + 1 < summaryCnt
      ensures pending == if summaryCnt == 0 then old(pending)
                         else if returned && |old(pending)| + 1 >= summaryCnt then [] else old(pending) + [m]
    {
      if summaryCnt == 0 {
        return true, [];
      }
      pending := pending + [m];
      returned, asked := true, [];
      if |pending| >= summaryCnt {
        asked := pending;
        if !summaryOk {
          return false, asked;
        }
        pending := [];
      }
    }
  }
}
