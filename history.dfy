/** The history-gathering loop of the `画像` command (main.py:45-73): page
    backwards through the group's history, keep the target's plain-text
    messages, and stop once enough are gathered or a page comes back empty.

    The platform is modelled by the finite list of pages it hands out, one
    per request in turn; once the list is used up every further request gets
    an empty page. That finiteness is what makes the loop terminate: the
    source itself has no cap on the number of rounds. */
module History {
  import opened Messages

  /** The page the platform answers with to the k-th request. */
  function PageAt(pages: seq<Page>, k: nat): (p: Page)
    ensures k < |pages| ==> p == pages[k]
    ensures |pages| <= k ==> p == []
  {
    if k < |pages| then pages[k] else []
  }

  /** Everything gathered from the first `n` pages, page after page. */
  function Transcript(pages: seq<Page>, target: UserId, n: nat): seq<ContextEntry>
    requires n <= |pages|
    decreases n
  {
    if n == 0 then [] else Transcript(pages, target, n - 1) + Accepted(pages[n - 1], target)
  }

  /** The cursor after `k` rounds: 0 ("newest") before the first page, then
      the `message_id` of the first record of the last page read. (Reading
      no page, or an empty one, also gives 0; the loop never does that.) */
  function CursorAfter(pages: seq<Page>, k: nat): (c: MessageId)
    ensures k == 0 ==> c == 0
    ensures 0 < k <= |pages| && pages[k - 1] != [] ==> c == pages[k - 1][0].messageId
  {
    if k == 0 || |pages| < k || pages[k - 1] == [] then 0 else pages[k - 1][0].messageId
  }

  /** The cursors sent with the first `n` requests, in order. */
  function CursorsSent(pages: seq<Page>, n: nat): (r: seq<MessageId>)
    ensures |r| == n
    ensures forall k :: 0 <= k < n ==> r[k] == CursorAfter(pages, k)
    decreases n
  {
    if n == 0 then [] else CursorsSent(pages, n - 1) + [CursorAfter(pages, n - 1)]
  }

  /** The number of pages handed out before the first empty one. */
  function LeadingPages(pages: seq<Page>): (n: nat)
    ensures n <= |pages|
    ensures forall k :: 0 <= k < n ==> pages[k] != []
    ensures n < |pages| ==> pages[n] == []
    ensures PageAt(pages, n) == []
    decreases |pages|
  {
    if pages == [] || pages[0] == [] then 0 else 1 + LeadingPages(pages[1..])
  }

  /** The loop reads exactly the first `rounds` pages: all of them non-empty,
      the last one requested while fewer than `messageCount` entries were
      gathered, and it stops because the count is reached or because the
      next page is empty. */
  predicate RunsFor(pages: seq<Page>, target: UserId, messageCount: int, rounds: nat) {
    && rounds <= LeadingPages(pages)
    && (0 < rounds ==> |Transcript(pages, target, rounds - 1)| < messageCount)
    && (rounds == LeadingPages(pages) || messageCount <= |Transcript(pages, target, rounds)|)
  }

  /** The transcript only ever grows by a suffix: what was gathered after `j`
      pages is a prefix of what is gathered after `k >= j` pages. */
  lemma {:induction false} TranscriptGrowsBySuffix(pages: seq<Page>, target: UserId, j: nat, k: nat)
    requires j <= k <= |pages|
    ensures Transcript(pages, target, j) <= Transcript(pages, target, k)
    decreases k
  {
    if j < k {
      TranscriptGrowsBySuffix(pages, target, j, k - 1);
    }
  }

  /** The number of gathered entries never decreases from one round to a later one. */
  lemma TranscriptLengthGrows(pages: seq<Page>, target: UserId, j: nat, k: nat)
    requires j <= k <= |pages|
    ensures |Transcript(pages, target, j)| <= |Transcript(pages, target, k)|
  {
    TranscriptGrowsBySuffix(pages, target, j, k);
  }

  /** Every round before the last one also started below the count, so the
      loop went on after each of them. */
  lemma EveryRoundStartedBelowCount(pages: seq<Page>, target: UserId, messageCount: int, rounds: nat, k: nat)
    requires RunsFor(pages, target, messageCount, rounds)
    requires k < rounds
    ensures pages[k] != [] && |Transcript(pages, target, k)| < messageCount
  {
    assert k < LeadingPages(pages);
    TranscriptLengthGrows(pages, target, k, rounds - 1);
  }

  /** When the count stops the loop, the last page overshot it by fewer
      entries than that page holds. */
  lemma OverFetchBound(pages: seq<Page>, target: UserId, messageCount: int, rounds: nat)
    requires RunsFor(pages, target, messageCount, rounds)
    requires 0 < rounds
    ensures |Transcript(pages, target, rounds)| < messageCount + |pages[rounds - 1]|
  {
  }

  /** The stopping rule fixes the number of rounds: the loop is deterministic. */
  lemma RunsForUnique(pages: seq<Page>, target: UserId, messageCount: int, r1: nat, r2: nat)
    requires RunsFor(pages, target, messageCount, r1)
    requires RunsFor(pages, target, messageCount, r2)
    ensures r1 == r2
  {
    if r1 < r2 {
      TranscriptLengthGrows(pages, target, r1, r2 - 1);
    } else if r2 < r1 {
      TranscriptLengthGrows(pages, target, r2, r1 - 1);
    }
  }

  /** What the loop gathers is a prefix of all the target's plain-text
      messages before the first empty page. */
  lemma RunsWithinLeadingPages(pages: seq<Page>, target: UserId, messageCount: int, rounds: nat)
    requires RunsFor(pages, target, messageCount, rounds)
    ensures Transcript(pages, target, rounds) <= Transcript(pages, target, LeadingPages(pages))
  {
    TranscriptGrowsBySuffix(pages, target, rounds, LeadingPages(pages));
  }

  /** When the history holds fewer qualifying messages than asked for, the
      loop reads every page up to the first empty one and returns exactly
      those messages. */
  lemma ShortHistoryReadInFull(pages: seq<Page>, target: UserId, messageCount: int, rounds: nat)
    requires RunsFor(pages, target, messageCount, rounds)
    requires |Transcript(pages, target, LeadingPages(pages))| < messageCount
    ensures rounds == LeadingPages(pages)
  {
    TranscriptLengthGrows(pages, target, rounds, LeadingPages(pages));
  }

  /** When the history up to the first empty page holds at least
      `messageCount` qualifying messages, the loop gathers at least that many. */
  lemma LongHistoryReachesCount(pages: seq<Page>, target: UserId, messageCount: int, rounds: nat)
    requires RunsFor(pages, target, messageCount, rounds)
    requires |Transcript(pages, target, LeadingPages(pages))| >= messageCount
    ensures |Transcript(pages, target, rounds)| >= messageCount
  {
  }

  /** The loop of main.py:45-73. Returns the gathered `contexts`, the final
      `message_seq`, and the cursor sent with each history request in order;
      `rounds` counts the non-empty pages read. */
  method FetchHistory(pages: seq<Page>, target: UserId, messageCount: int)
    returns (contexts: seq<ContextEntry>, messageSeq: MessageId, requests: seq<MessageId>, ghost rounds: nat)
    ensures RunsFor(pages, target, messageCount, rounds)
    ensures contexts == Transcript(pages, target, rounds)
    ensures messageSeq == CursorAfter(pages, rounds)
    ensures |requests| == if |contexts| < messageCount then rounds + 1 else rounds
    ensures requests == CursorsSent(pages, |requests|)
  {
    contexts, messageSeq, requests, rounds := [], 0, [], 0;
    while |contexts| < messageCount
      invariant rounds <= LeadingPages(pages)
      invariant 0 < rounds ==> |Transcript(pages, target, rounds - 1)| < messageCount
      invariant contexts == Transcript(pages, target, rounds)
      invariant messageSeq == CursorAfter(pages, rounds)
      invariant requests == CursorsSent(pages, rounds)
      decreases |pages| - rounds
    {
      // the platform answers the request with the next page it holds
      var roundMessages := PageAt(pages, |requests|);
      requests := requests + [messageSeq];
      if roundMessages == [] {
        break;
      }
      messageSeq := roundMessages[0].messageId;
      contexts := contexts + Accepted(roundMessages, target);
      rounds := rounds + 1;
    }
  }
}
