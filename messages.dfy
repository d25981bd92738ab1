/** Chat records as the group-history API returns them, and the filter that
    turns a page of records into conversation entries for the language model
    (main.py:63-73). */
module Messages {

  datatype Option<+T> = None | Some(value: T)

  /** A numeric account identifier (`user_id`, the `qq` of a mention). */
  type UserId = int

  /** A message identifier; it doubles as the history cursor `message_seq`. */
  type MessageId = int

  /** One segment of a message. The filter only distinguishes plain text from
      everything else; mentions are kept apart because the command's own
      message is searched for them. */
  datatype Segment =
    | Text(text: string)
    | At(qq: UserId)
    | Other

  /** One record of a history page: `sender.user_id`, `message`, `message_id`. */
  datatype Record = Record(sender: UserId, message: seq<Segment>, messageId: MessageId)

  type Page = seq<Record>

  /** One `{"role": ..., "content": ...}` dictionary handed to the provider. */
  datatype ContextEntry = ContextEntry(role: string, content: string)

  const UserRole: string := "user"

  /** The filter of the comprehension: written by the target, exactly one
      segment, and that segment is plain text. */
  predicate Accepts(r: Record, target: UserId)
    ensures Accepts(r, target) <==> r.sender == target && exists t :: r.message == [Text(t)]
  {
    r.sender == target && |r.message| == 1 && r.message[0].Text?
  }

  /** The entry an accepted record becomes. */
  function EntryOf(r: Record): (e: ContextEntry)
    requires |r.message| == 1 && r.message[0].Text?
    ensures e.role == UserRole && e.content == r.message[0].text
  {
    ContextEntry(UserRole, r.message[0].text)
  }

  /** The list the comprehension builds from one page, in page order. */
  function Accepted(page: Page, target: UserId): (r: seq<ContextEntry>)
    ensures |r| <= |page|
    ensures forall e :: e in r ==> e.role == UserRole
    decreases |page|
  {
    if page == [] then []
    else
      var last := page[|page| - 1];
      Accepted(page[..|page| - 1], target) + (if Accepts(last, target) then [EntryOf(last)] else [])
  }

  /** The positions, in increasing order, of the records of `page` that the
      filter keeps. */
  function Selected(page: Page, target: UserId): seq<nat>
    decreases |page|
  {
    if page == [] then []
    else Selected(page[..|page| - 1], target) + (if Accepts(page[|page| - 1], target) then [|page| - 1] else [])
  }

  /** The comprehension keeps a record if and only if the filter accepts it,
      keeps the accepted records in page order, and turns each into its text. */
  lemma {:induction false} AcceptedSelectsExactly(page: Page, target: UserId)
    ensures var s := Selected(page, target);
      && |Accepted(page, target)| == |s|
      && (forall j :: 0 <= j < |s| ==>
            s[j] < |page| && Accepts(page[s[j]], target) && Accepted(page, target)[j] == EntryOf(page[s[j]]))
      && (forall i :: 0 <= i < |page| && Accepts(page[i], target) ==> i in s)
      && (forall j, k :: 0 <= j < k < |s| ==> s[j] < s[k])
    decreases |page|
  {
    if page != [] {
      var n := |page| - 1;
      var init := page[..n];
      AcceptedSelectsExactly(init, target);
      var s0, a0 := Selected(init, target), Accepted(init, target);
      var s, a := Selected(page, target), Accepted(page, target);
      if Accepts(page[n], target) {
        assert s == s0 + [n] && a == a0 + [EntryOf(page[n])];
      } else {
        assert s == s0 && a == a0;
      }
      forall j | 0 <= j < |s|
        ensures s[j] < |page| && Accepts(page[s[j]], target) && a[j] == EntryOf(page[s[j]])
      {
        if j < |s0| {
          assert s[j] == s0[j] && a[j] == a0[j] && init[s0[j]] == page[s0[j]];
        }
      }
      forall i | 0 <= i < |page| && Accepts(page[i], target)
        ensures i in s
      {
        if i < n {
          assert init[i] == page[i];
          assert i in s0;
        }
      }
    }
  }

  /** A record with several segments, or with one segment that is not plain
      text, contributes nothing, even when the target wrote it. */
  lemma {:induction false} RejectedRecordContributesNothing(before: Page, r: Record, after: Page, target: UserId)
    requires !Accepts(r, target)
    ensures Accepted(before + [r] + after, target) == Accepted(before + after, target)
    decreases |after|
  {
    if after == [] {
      assert (before + [r])[..|before|] == before;
      assert before + [r] + [] == before + [r];
      assert before + [] == before;
    } else {
      var init := after[..|after| - 1];
      var last := after[|after| - 1];
      RejectedRecordContributesNothing(before, r, init, target);
      assert (before + [r] + after)[..|before + [r] + after| - 1] == before + [r] + init;
      assert (before + after)[..|before + after| - 1] == before + init;
    }
  }
}
