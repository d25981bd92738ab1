/** The `画像` command of the plugin (main.py): pick the target user, gather
    their recent plain-text messages, ask the language model for a character
    portrait and reply with it as an image, or with a failure notice. */
module Portrayal {
  import opened Messages
  import opened History

  /** The command message as the handler sees it: its segments, the bot's own
      account, and the sender's account (`None` when the platform gives an
      empty sender id). */
  datatype Event = Event(messages: seq<Segment>, selfId: UserId, senderId: Option<UserId>)

  /** What `get_group_member_info` answers; every field may be missing. */
  datatype MemberInfo = MemberInfo(card: Option<string>, nickname: Option<string>, sex: Option<string>)

  /** What the provider's `text_chat` does: it completes, or it raises. */
  datatype Completion = Completed(completionText: string) | Fault(reason: string)

  /** The language model: system prompt, prompt and contexts to a completion. */
  type Provider = (string, string, seq<ContextEntry>) -> Completion

  /** The two kinds of reply: an image rendered from the model's text, or plain text. */
  datatype Reply = Image(renderedFrom: string) | Plain(text: string)

  const DefaultMessageCount: int := 200
  const AskForTarget: string := "请@指定群友"
  const AnalysisFailed: string := "分析失败"
  const MalePronoun: char := '他'
  const OtherPronoun: char := '她'

  const SystemHead: string := "请根据 "
  const SystemMiddle: string := " 的聊天记录，分析"
  const SystemTail: string := "的性格特点, 并给出性格标签, 注意要用可爱、调侃的语气，尽量夸奖这位群友，注意给出你的分析过程"
  const UserHead: string := "这是 "
  const UserTail: string := " 的聊天记录"

  // ---------------------------------------------------------------- target

  /** A mention of somebody other than the bot itself. */
  predicate MentionsOther(seg: Segment, selfId: UserId)
    ensures MentionsOther(seg, selfId) <==> exists q :: seg == At(q) && q != selfId
  {
    seg.At? && seg.qq != selfId
  }

  /** The position of the first mention of somebody other than the bot, or
      `|segs|` when there is none. */
  function FirstMention(segs: seq<Segment>, selfId: UserId): (i: nat)
    ensures i <= |segs|
    ensures i < |segs| ==> MentionsOther(segs[i], selfId)
    ensures forall j :: 0 <= j < i ==> !MentionsOther(segs[j], selfId)
    decreases |segs|
  {
    if segs == [] || MentionsOther(segs[0], selfId) then 0
    else 1 + FirstMention(segs[1..], selfId)
  }

  /** The target (main.py:33-40): the first mentioned account that is not the
      bot's own; without one, the sender. */
  function ResolveTarget(event: Event): (target: Option<UserId>)
    ensures (forall i :: 0 <= i < |event.messages| ==> !MentionsOther(event.messages[i], event.selfId))
              ==> target == event.senderId
    ensures forall i :: 0 <= i < |event.messages| && MentionsOther(event.messages[i], event.selfId)
              ==> exists j :: 0 <= j <= i && MentionsOther(event.messages[j], event.selfId)
                    && target == Some(event.messages[j].qq)
                    && forall k :: 0 <= k < j ==> !MentionsOther(event.messages[k], event.selfId)
  {
    var i := FirstMention(event.messages, event.selfId);
    if i < |event.messages| then Some(event.messages[i].qq) else event.senderId
  }

  // ---------------------------------------------------------------- name, gender, prompts

  /** `get_nickname` (main.py:101-112): the group card when it is present
      and non-empty, the account nickname otherwise; and the `sex` field. */
  function GetNickname(info: MemberInfo): (r: (Option<string>, Option<string>))
    ensures info.card.Some? && info.card.value != "" ==> r.0 == info.card
    ensures info.card.None? || info.card.value == "" ==> r.0 == info.nickname
    ensures r.1 == info.sex
    ensures (r.0.Some? && r.0.value != "")
              <==> (info.card.Some? && info.card.value != "") || (info.nickname.Some? && info.nickname.value != "")
  {
    var name := if info.card.Some? && info.card.value != "" then info.card else info.nickname;
    (name, info.sex)
  }

  /** How a Python f-string prints an optional string: a missing one as `None`. */
  function Show(s: Option<string>): (r: string)
    ensures s == None ==> r == "None"
    ensures s.Some? ==> r == s.value
  {
    if s.Some? then s.value else "None"
  }

  /** `他` for `"male"`, `她` for anything else, a missing gender included. */
  function Pronoun(gender: Option<string>): (c: char)
    ensures c == MalePronoun <==> gender == Some("male")
    ensures c == MalePronoun || c == OtherPronoun
  {
    if gender == Some("male") then MalePronoun else OtherPronoun
  }

  /** The system prompt (main.py:87-88): the name and the pronoun sit at fixed
      places in a fixed text. */
  function SystemPrompt(nickname: Option<string>, gender: Option<string>): (p: string)
    ensures |p| == |SystemHead| + |Show(nickname)| + |SystemMiddle| + 1 + |SystemTail|
    ensures p[..|SystemHead|] == SystemHead
    ensures p[|SystemHead|..|SystemHead| + |Show(nickname)|] == Show(nickname)
    ensures p[|SystemHead| + |Show(nickname)|..|p| - |SystemTail| - 1] == SystemMiddle
    ensures p[|p| - |SystemTail| - 1] == Pronoun(gender)
    ensures p[|p| - |SystemTail|..] == SystemTail
  {
    var p := SystemHead + Show(nickname) + SystemMiddle + [Pronoun(gender)] + SystemTail;
    assert p == (SystemHead + Show(nickname)) + (SystemMiddle + [Pronoun(gender)] + SystemTail);
    p
  }

  /** The prompt (main.py:89): the name between two fixed texts. */
  function UserPrompt(nickname: Option<string>): (p: string)
    ensures |p| == |UserHead| + |Show(nickname)| + |UserTail|
    ensures p[..|UserHead|] == UserHead
    ensures p[|UserHead|..|p| - |UserTail|] == Show(nickname)
    ensures p[|p| - |UserTail|..] == UserTail
  {
    UserHead + Show(nickname) + UserTail
  }

  /** Reads the name back out of a prompt, if the prompt has the fixed shape. */
  function NameInUserPrompt(p: string): Option<string> {
    if |p| >= |UserHead| + |UserTail| && p[..|UserHead|] == UserHead && p[|p| - |UserTail|..] == UserTail
    then Some(p[|UserHead|..|p| - |UserTail|])
    else None
  }

  /** Reads the name back out of a system prompt, if it has the fixed shape. */
  function NameInSystemPrompt(p: string): Option<string> {
    var fixedEnd := |SystemMiddle| + 1 + |SystemTail|;
    if |p| >= |SystemHead| + fixedEnd && p[..|SystemHead|] == SystemHead
       && p[|p| - fixedEnd..|p| - fixedEnd + |SystemMiddle|] == SystemMiddle
       && p[|p| - |SystemTail|..] == SystemTail
    then Some(p[|SystemHead|..|p| - fixedEnd])
    else None
  }

  /** Reads the pronoun back out of a system prompt. */
  function PronounInSystemPrompt(p: string): Option<char> {
    if |p| >= |SystemHead| + |SystemMiddle| + 1 + |SystemTail| && p[|p| - |SystemTail|..] == SystemTail
    then Some(p[|p| - |SystemTail| - 1])
    else None
  }

  /** Both prompts carry the display name and the system prompt carries the
      pronoun, recoverably. */
  lemma PromptsCarryNameAndPronoun(nickname: Option<string>, gender: Option<string>)
    ensures NameInUserPrompt(UserPrompt(nickname)) == Some(Show(nickname))
    ensures PronounInSystemPrompt(SystemPrompt(nickname, gender)) == Some(Pronoun(gender))
    ensures NameInSystemPrompt(SystemPrompt(nickname, gender)) == Some(Show(nickname))
  {
  }

  /** Users who differ only in being recorded as male produce different
      system prompts. */
  lemma MaleChangesSystemPrompt(nickname: Option<string>, gender: Option<string>)
    requires gender != Some("male")
    ensures SystemPrompt(nickname, Some("male")) != SystemPrompt(nickname, gender)
  {
  }

  // ---------------------------------------------------------------- provider and reply

  /** `get_llm_respond` (main.py:82-99): a fault of the provider becomes `None`
      and is never passed on; a completion is returned as it is. */
  function GetLlmRespond(nickname: Option<string>, gender: Option<string>, contexts: seq<ContextEntry>,
                         provider: Provider): (r: Option<string>)
    ensures r.None? <==> provider(SystemPrompt(nickname, gender), UserPrompt(nickname), contexts).Fault?
    ensures r.Some? ==> provider(SystemPrompt(nickname, gender), UserPrompt(nickname), contexts) == Completed(r.value)
  {
    match provider(SystemPrompt(nickname, gender), UserPrompt(nickname), contexts)
    case Completed(text) => Some(text)
    case Fault(_) => None
  }

  /** The reply (main.py:76-80): an image of the model's answer when there is
      a non-empty one, the fixed failure text otherwise. */
  function ChooseReply(respond: Option<string>): (reply: Reply)
    ensures reply == Plain(AnalysisFailed) <==> respond == None || respond == Some("")
    ensures reply.Image? <==> respond.Some? && respond.value != ""
    ensures reply.Image? ==> reply.renderedFrom == respond.value
  {
    if respond.Some? && respond.value != "" then Image(respond.value) else Plain(AnalysisFailed)
  }

  /** A provider fault ends in the failure notice, never in a raised fault. */
  lemma ProviderFaultRepliesFailure(nickname: Option<string>, gender: Option<string>,
                                    contexts: seq<ContextEntry>, provider: Provider)
    requires provider(SystemPrompt(nickname, gender), UserPrompt(nickname), contexts).Fault?
    ensures ChooseReply(GetLlmRespond(nickname, gender, contexts, provider)) == Plain(AnalysisFailed)
  {
  }

  // ---------------------------------------------------------------- the plugin

  /** The plugin object; it keeps only the configured number of messages to
      gather. */
  class Relationship {
    const messageCount: int

    /** `config.get("message_count", 200)` (main.py:19-23). */
    constructor (configured: Option<int>)
      ensures messageCount == if configured.Some? then configured.value else DefaultMessageCount
    {
      messageCount := if configured.Some? then configured.value else DefaultMessageCount;
    }

    /** The command handler (main.py:25-80). The platform's history is the
        list of pages it hands out in turn, `memberInfo` answers the member
        lookup, and `provider` is the language model. */
    method GetPortrayal(event: Event, history: seq<Page>, memberInfo: UserId -> MemberInfo, provider: Provider)
      returns (reply: Reply)
      ensures ResolveTarget(event).None? ==> reply == Plain(AskForTarget)
      ensures ResolveTarget(event).Some? ==>
        var target := ResolveTarget(event).value;
        var info := GetNickname(memberInfo(target));
        exists rounds: nat :: RunsFor(history, target, messageCount, rounds)
          && reply == ChooseReply(GetLlmRespond(info.0, info.1, Transcript(history, target, rounds), provider))
      ensures reply == Plain(AskForTarget) || reply == Plain(AnalysisFailed) || reply.Image?
    {
      var targetId := ResolveTarget(event);
      if targetId.None? {
        return Plain(AskForTarget);
      }
      var contexts, _, _, rounds := FetchHistory(history, targetId.value, messageCount);
      var info := GetNickname(memberInfo(targetId.value));
      var llmRespond := GetLlmRespond(info.0, info.1, contexts, provider);
      reply := ChooseReply(llmRespond);
    }
  }
}
