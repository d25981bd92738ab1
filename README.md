# Portrait command of astrbot_plugin_portrayal, modelled in Dafny

The plugin adds one command, `画像` ("portrait"), to a group chat bot. The
command picks a target user: the first user mentioned in the command who is
not the bot, or else the sender. It then pages backwards through the group's
message history and keeps the target's plain-text messages until it has at
least `message_count` of them (200 by default) or a page comes back empty.
Because a whole page is taken at a time, it can end with more than
`message_count` messages, by fewer than one page's worth. It looks
up the target's display name and gender, builds two prompts that embed them,
and asks the language model for a character portrait. The reply is an image
of the model's answer, or the fixed text `分析失败` ("analysis failed") when
the model fails or answers with nothing.

The model has three modules:

- `Messages` (messages.dfy) holds the history records, their segments, and the
  filter that turns one page into conversation entries.
- `History` (history.dfy) holds the fetch loop `FetchHistory`, an imperative
  method with loop invariants. It is proved against the specification
  predicate `RunsFor` and the function `Transcript`.
- `Portrayal` (portrayal.dfy) holds target resolution, the display name,
  the pronoun, both prompts, the fail-soft provider call, the reply choice,
  and the plugin class `Relationship` with its handler `GetPortrayal`.

The group history is modelled as the finite list of pages that the platform
hands out, one page per request, in turn. Once the list is used up, every
further request gets an empty page. The source's loop has no cap on the
number of rounds, so this finiteness is what makes the loop terminate. Each
request's cursor (`message_seq`) is logged in the `requests` out-parameter,
so the model states which cursor was sent each round.

This revision of main.py has no `max_query_rounds` setting and no
configurable system-prompt template: the loop has no round cap and the
prompt text is fixed. The model follows the code in both respects.

## Model

| member | source | states |
|---|---|---|
| `Messages.Accepts` | main.py:67-71 | a record passes the filter exactly when its author is the target and its message is a single text segment |
| `Messages.EntryOf` | main.py:65 | an accepted record becomes a `user` entry whose content is the text of its single segment |
| `Messages.Accepted` | main.py:63-73 | one page contributes at most as many entries as it has records, and every entry has role `user` |
| `Messages.AcceptedSelectsExactly` | main.py:63-73 | a record of the page is kept if and only if its author is the target, it has exactly one segment and that segment is text; kept records appear in page order, each as its text |
| `Messages.RejectedRecordContributesNothing` | main.py:67-71 | a record that fails the filter (another author, several segments, or one non-text segment) changes nothing in what the page contributes |
| `History.PageAt` | main.py:55-60 | the k-th request is answered with the k-th page the platform holds, and with an empty page once those are used up |
| `History.CursorAfter` | main.py:45-61 | `message_seq` is 0 before the first page and afterwards the `message_id` of the first record of the last page read |
| `History.CursorsSent` | main.py:49-57 | the cursors sent with the first `n` requests: one per request, the k-th being `message_seq` after k rounds |
| `History.LeadingPages` | main.py:58-60 | counts the non-empty pages before the first empty one: all pages before it are non-empty and the platform's answer at it is empty |
| `History.TranscriptGrowsBySuffix` | main.py:63-73 | the gathered list only grows by a suffix: what was gathered after `j` pages is a prefix of what is gathered after any later round |
| `History.TranscriptLengthGrows` | main.py:63-73 | the number of gathered entries never decreases from one round to a later one |
| `History.EveryRoundStartedBelowCount` | main.py:48-61 | every page the loop read was non-empty and was requested while fewer than `message_count` entries were gathered |
| `History.OverFetchBound` | main.py:48-73 | when the loop stops, it overshot the count by fewer entries than the last page holds |
| `History.RunsForUnique` | main.py:48-61 | the stopping rule (continue while below the count, stop on an empty page) fixes the number of rounds uniquely |
| `History.RunsWithinLeadingPages` | main.py:58-60 | what the loop gathers is a prefix of all the target's qualifying messages before the first empty page |
| `History.ShortHistoryReadInFull` | main.py:48-73 | when the history holds fewer qualifying messages than the count, the loop reads every page up to the first empty one, so it returns exactly those messages |
| `History.LongHistoryReachesCount` | main.py:48-73 | when the history holds at least `message_count` qualifying messages, the loop gathers at least that many |
| `History.FetchHistory` | main.py:45-73 | the result is the accepted entries of the pages read, in order; the pages read are non-empty, the last was requested while below the count, and the loop stopped on reaching the count or on an empty page, which changes neither the list nor the cursor; the requests sent are exactly `CursorsSent` for their number, so the first request uses cursor 0 and each later one uses the `message_id` of the first record of the previous page |
| `Portrayal.MentionsOther` | main.py:37 | a segment counts as a mention exactly when it is an `At` segment whose account differs from the bot's own |
| `Portrayal.FirstMention` | main.py:33-38 | finds the first mention of an account other than the bot's, with no such mention before it |
| `Portrayal.ResolveTarget` | main.py:33-40 | the target is the first mentioned account that differs from the bot's own; with no such mention it is the sender |
| `Portrayal.GetNickname` | main.py:101-112 | the name is the group card when that is present and non-empty, the nickname otherwise; the gender is the `sex` field; a non-empty name results exactly when the card or the nickname is non-empty |
| `Portrayal.Show` | main.py:88-89 | the f-strings print a present name as itself and a missing name as `None` |
| `Portrayal.Pronoun` | main.py:87 | the pronoun is `他` exactly when the gender is `"male"`, and `她` otherwise, a missing gender included |
| `Portrayal.SystemPrompt` | main.py:87-88 | the system prompt is the fixed opening words, the name, the fixed middle words, the pronoun and the fixed closing words, in that order |
| `Portrayal.UserPrompt` | main.py:89 | the prompt is the name between the two fixed texts |
| `Portrayal.PromptsCarryNameAndPronoun` | main.py:87-89 | the name can be read back out of both prompts, and the pronoun out of the system prompt |
| `Portrayal.MaleChangesSystemPrompt` | main.py:87-88 | a member recorded as male gets a different system prompt from one with any other or no gender |
| `Portrayal.GetLlmRespond` | main.py:82-99 | a provider fault becomes `None` and is never passed on; otherwise the completion text is returned unchanged |
| `Portrayal.ChooseReply` | main.py:76-80 | the reply is `分析失败` exactly when the response is missing or empty, and otherwise an image of the response |
| `Portrayal.ProviderFaultRepliesFailure` | main.py:76-99 | a provider fault always ends in the `分析失败` reply |
| `Portrayal.Relationship.constructor` | main.py:19-23 | the message count is the configured one, or 200 when none is configured |
| `Portrayal.Relationship.GetPortrayal` | main.py:25-80 | without a target the reply asks for a mention; otherwise the reply is the choice made on the provider's answer for the target's name, gender and gathered messages, and it is always the request text, the failure text or an image |

## Left out

- The history API `get_group_msg_history` is network I/O. It is modelled by the finite list of pages it hands out in turn. Which page comes back for a given cursor value, and the other request fields (group id, page size 200, `reverseOrder`), are the platform's business and are not modelled.
- History.FetchHistory: overlapping or repeated pages are not deduplicated, as in the source. A platform that kept answering with non-empty pages would make the source loop forever; the finite page list excludes that case.
- The member lookup `get_group_member_info` is network I/O. It is a function parameter from account to member info.
- The language model's `text_chat` is a foreign call. It is a function parameter that either completes with a text or faults.
- Rendering with `text_to_image` is foreign. An image reply carries the text it was rendered from.
- Faults raised by `get_group_msg_history`, `get_group_member_info` or `text_to_image` are not modelled. These calls sit outside any `try` in main.py, so such a fault reaches the host. The model's platform inputs are total functions, so they cannot express these faults.
- Ids are integers. The string-to-integer conversions `int(target_id)` and `int(group_id)`, and the failures they could raise, are not modelled. An empty sender id is modelled as a missing one.
- Logging of the provider fault, `async`/`await`, the generator `yield` plumbing, the `@register` and `@filter.command` decorators, and config loading other than `message_count` are framework glue.
- Portrayal.GetNickname: it takes `card`, `nickname` and `sex` to be strings or missing. Python truthiness of other value types is not modelled.
