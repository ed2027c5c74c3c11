/**
 * The conversation memory of `analyze_user_preferences` (api/agent.py): a map from
 * conversation id to the last exchanges, the prompt assembled from it, the update made after
 * a validated answer, and `clear_conversation_cache`. The language-model call itself is an
 * input: its raw reply and the result of parsing that reply as JSON.
 */
module Conversation {

  import opened Wrappers
  import opened Json
  import opened Tags
  import Validation

  /** The author of a chat message. */
  datatype Role = System | User | Assistant

  /** One chat message. */
  datatype Message = Message(role: Role, content: string)

  /** `_conversation_cache`: conversation id to its stored messages. */
  type Cache = map<string, seq<Message>>

  /** The history keeps at most this many messages. */
  const HistoryLimit: nat := 10

  /** `s[-n:]`: the last `n` elements, or all of them when there are fewer. */
  function LastN<T>(s: seq<T>, n: nat): (r: seq<T>)
    ensures |r| == if |s| < n then |s| else n
    ensures r == s[|s| - |r|..]
  {
    if |s| > n then s[|s| - n..] else s
  }

  /**
   * The messages sent to the model: the system prompt, then the stored history of a truthy
   * conversation id, then the user's prompt.
   */
  function PromptMessages(cache: Cache, id: Option<string>, systemPrompt: string, userPrompt: string): (ms: seq<Message>)
    ensures |ms| >= 2
    ensures ms[0] == Message(System, systemPrompt) && ms[|ms| - 1] == Message(User, userPrompt)
    ensures ms[1..|ms| - 1] == if Truthy(id) && id.value in cache then cache[id.value] else []
  {
    var history := if Truthy(id) && id.value in cache then cache[id.value] else [];
    var ms := [Message(System, systemPrompt)] + history + [Message(User, userPrompt)];
    assert ms[1..|ms| - 1] == history;
    ms
  }

  /**
   * The update after a validated answer: for a truthy id, the user's prompt and the raw reply
   * are appended to its history, which is then cut to its last ten messages; a falsy id
   * leaves the cache alone.
   */
  function Remember(cache: Cache, id: Option<string>, userPrompt: string, reply: string): (r: Cache)
    ensures !Truthy(id) ==> r == cache
    ensures Truthy(id) ==>
      var before := if id.value in cache then cache[id.value] else [];
      var exchange := [Message(User, userPrompt), Message(Assistant, reply)];
      && r.Keys == cache.Keys + {id.value}
      && (forall k :: k in cache && k != id.value ==> r[k] == cache[k])
      && r[id.value] == LastN(before + exchange, HistoryLimit)
      && |r[id.value]| <= HistoryLimit
      && r[id.value][|r[id.value]| - 2..] == exchange
  {
    if !Truthy(id) then cache
    else
      var before := if id.value in cache then cache[id.value] else [];
      var exchange := [Message(User, userPrompt), Message(Assistant, reply)];
      var kept := LastN(before + exchange, HistoryLimit);
      assert kept[|kept| - 2..] == exchange;
      cache[id.value := kept]
  }

  /** `clear_conversation_cache`: a truthy id forgets that one conversation; otherwise all are forgotten. */
  function Clear(cache: Cache, id: Option<string>): (r: Cache)
    ensures Truthy(id) ==> r.Keys == cache.Keys - {id.value} && forall k :: k in r ==> r[k] == cache[k]
    ensures !Truthy(id) ==> r == map[]
  {
    if Truthy(id) then cache - {id.value} else map[]
  }

  /** After a conversation is cleared its next prompt carries no history. */
  lemma ClearedHasNoHistory(cache: Cache, id: Option<string>, systemPrompt: string, userPrompt: string)
    ensures PromptMessages(Clear(cache, id), id, systemPrompt, userPrompt) == [Message(System, systemPrompt), Message(User, userPrompt)]
  {
    var ms := PromptMessages(Clear(cache, id), id, systemPrompt, userPrompt);
    assert ms == [ms[0]] + ms[1..|ms| - 1] + [ms[|ms| - 1]];
  }

  /** The role at position `i` of a well-formed history. */
  function RoleAt(i: nat): Role {
    if i % 2 == 0 then User else Assistant
  }

  /** Shifting a position by an even amount keeps its role. */
  lemma RoleAtShift(k: nat, i: nat)
    ensures RoleAt(2 * k + i) == RoleAt(i)
  {
  }

  /** Messages alternate user, assistant, starting with the user. */
  predicate Alternates(h: seq<Message>) {
    forall i :: 0 <= i < |h| ==> h[i].role == RoleAt(i)
  }

  /** An alternating sequence of even length followed by one more exchange still alternates. */
  lemma AppendExchange(h: seq<Message>, userPrompt: string, reply: string)
    requires Alternates(h) && |h| % 2 == 0
    ensures Alternates(h + [Message(User, userPrompt), Message(Assistant, reply)])
  {
    var s := h + [Message(User, userPrompt), Message(Assistant, reply)];
    RoleAtShift(|h| / 2, 0);
    RoleAtShift(|h| / 2, 1);
    assert |h| == 2 * (|h| / 2);
  }

  /** Dropping an even number of leading messages keeps the alternation. */
  lemma DropEven(s: seq<Message>, k: nat)
    requires Alternates(s) && 2 * k <= |s|
    ensures Alternates(s[2 * k..])
  {
    forall i | 0 <= i < |s| - 2 * k ensures s[2 * k..][i].role == RoleAt(i) {
      RoleAtShift(k, i);
    }
  }

  /** A stored history: whole exchanges, user then assistant, at most ten messages. */
  predicate WellFormedHistory(h: seq<Message>) {
    |h| <= HistoryLimit && |h| % 2 == 0 && Alternates(h)
  }

  /** Every history in the cache is well formed. */
  predicate WellFormedCache(cache: Cache) {
    forall k :: k in cache ==> WellFormedHistory(cache[k])
  }

  /** Appending an exchange and keeping the last ten keeps a history well formed. */
  lemma RememberKeepsHistory(h: seq<Message>, userPrompt: string, reply: string)
    requires WellFormedHistory(h)
    ensures WellFormedHistory(LastN(h + [Message(User, userPrompt), Message(Assistant, reply)], HistoryLimit))
  {
    var s := h + [Message(User, userPrompt), Message(Assistant, reply)];
    AppendExchange(h, userPrompt, reply);
    var r := LastN(s, HistoryLimit);
    if |s| <= HistoryLimit {
      assert r == s;
      assert |s| % 2 == 0;
    } else {
      assert r == s[2..];
      DropEven(s, 1);
    }
  }

  /** The cache stays well formed under every update. */
  lemma RememberKeepsCache(cache: Cache, id: Option<string>, userPrompt: string, reply: string)
    requires WellFormedCache(cache)
    ensures WellFormedCache(Remember(cache, id, userPrompt, reply))
  {
    if Truthy(id) {
      var before := if id.value in cache then cache[id.value] else [];
      RememberKeepsHistory(before, userPrompt, reply);
    }
  }

  /** Why the analysis fails. */
  datatype AnalysisError =
    | NotJson                                        // `json.loads` raised, or the reply is not a JSON object
    | Invalid(reason: Validation.ValidationError)    // `validate_llm_response` raised

  /** One call of the analysis: what was sent, what came of it, and the cache afterwards. */
  datatype Analysis = Analysis(sent: seq<Message>, result: Result<Categories, AnalysisError>, cache: Cache)

  /**
   * `analyze_user_preferences`, given the model's raw reply and its JSON parse (None when it
   * is not a JSON object). The history is sent with the prompt; it is extended only when the
   * reply parses and validates.
   */
  function Analyze(cache: Cache, id: Option<string>, systemPrompt: string, userPrompt: string,
                   reply: string, parsed: Option<Object>): (a: Analysis)
    ensures a.sent == PromptMessages(cache, id, systemPrompt, userPrompt)
    ensures parsed.None? ==> a.result == Failure(NotJson)
    ensures parsed.Some? ==> (a.result.Success? <==> Validation.WellFormed(parsed.value))
    ensures a.result.Success? ==> ToObject(a.result.value) == parsed.value
    ensures a.result.Failure? ==> a.cache == cache
    ensures a.result.Success? ==> a.cache == Remember(cache, id, userPrompt, reply)
  {
    var sent := PromptMessages(cache, id, systemPrompt, userPrompt);
    match parsed
    case None => Analysis(sent, Failure(NotJson), cache)
    case Some(resp) =>
      match Validation.Validate(resp)
      case Failure(e) => Analysis(sent, Failure(Invalid(e)), cache)
      case Success(c) => Analysis(sent, Success(c), Remember(cache, id, userPrompt, reply))
  }

  /** With five exchanges stored, a sixth drops the oldest one. */
  lemma OldestExchangeDropped(h: seq<Message>, userPrompt: string, reply: string)
    requires WellFormedHistory(h) && |h| == HistoryLimit
    ensures var r := LastN(h + [Message(User, userPrompt), Message(Assistant, reply)], HistoryLimit);
      r == h[2..] + [Message(User, userPrompt), Message(Assistant, reply)]
  {
  }
}
