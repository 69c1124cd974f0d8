/**
 * The in-memory branch of `ConversationManager` (conversation_manager.py): one map,
 * `memory_storage`, holds a session record under `chat_session:<user>` and a
 * most-recent-first message list under `chat_history:<user>`.
 * Timestamps (`datetime.now().isoformat()`) are passed in as `now`.
 */
module Conversation {
  import opened Wrappers
  import opened Text

  /** A value stored in a session's context or metadata: a string or a list of strings. */
  datatype Value = Str(s: string) | StrList(items: seq<string>)

  type Context = map<string, Value>

  /** Python truthiness of a stored value: the empty string and the empty list are false. */
  predicate Truthy(v: Value)
  {
    match v
    case Str(s) => s != ""
    case StrList(items) => items != []
  }

  /** `ctx.get(key)` is truthy. */
  predicate Filled(ctx: Context, key: string)
  {
    key in ctx && Truthy(ctx[key])
  }

  datatype Session = Session(userId: string, startedAt: string, lastActivity: string, metadata: Context, context: Context)

  datatype Message = Message(role: string, content: string, timestamp: string, metadata: Context)

  /** What `memory_storage` holds under a key. */
  datatype Record = SessionRecord(session: Session) | HistoryRecord(messages: seq<Message>)

  type Storage = map<string, Record>

  /** The history is cut to this many entries on every append. */
  const HistoryCap := 50

  const SessionPrefix := "chat_session:"
  const HistoryPrefix := "chat_history:"

  /** `_get_session_key` */
  function SessionKey(userId: string): string
  {
    SessionPrefix + userId
  }

  /** `_get_history_key` */
  function HistoryKey(userId: string): string
  {
    HistoryPrefix + userId
  }

  /** A user's session record and history record never share a key, whoever the users are. */
  lemma KeysNeverCollide(u: string, v: string)
    ensures SessionKey(u) != HistoryKey(v)
  {
    assert SessionKey(u)[5] == 's' && HistoryKey(v)[5] == 'h';
  }

  /** Distinct users get distinct session keys and distinct history keys. */
  lemma KeysInjective(u: string, v: string)
    ensures SessionKey(u) == SessionKey(v) ==> u == v
    ensures HistoryKey(u) == HistoryKey(v) ==> u == v
  {
    if SessionKey(u) == SessionKey(v) {
      assert u == SessionKey(u)[13..] && v == SessionKey(v)[13..];
    }
    if HistoryKey(u) == HistoryKey(v) {
      assert u == HistoryKey(u)[13..] && v == HistoryKey(v)[13..];
    }
  }

  /** Every record sits under the key its kind and owner call for, and no history exceeds the cap. */
  predicate RecordFits(key: string, r: Record)
  {
    match r
    case SessionRecord(s) => key == SessionKey(s.userId)
    case HistoryRecord(h) => |key| >= 13 && key[..13] == HistoryPrefix && |h| <= HistoryCap
  }

  predicate StoreInvariant(st: Storage)
  {
    forall k :: k in st ==> RecordFits(k, st[k])
  }

  /** Under the invariant, whatever is stored under a user's session key is that user's session. */
  lemma SessionSlotHoldsOwnSession(st: Storage, u: string)
    requires StoreInvariant(st) && SessionKey(u) in st
    ensures st[SessionKey(u)].SessionRecord? && st[SessionKey(u)].session.userId == u
  {
    var r := st[SessionKey(u)];
    assert RecordFits(SessionKey(u), r);
    assert SessionKey(u)[5] == 's';
    if r.HistoryRecord? {
      assert false;
    }
    KeysInjective(u, r.session.userId);
  }

  /** Under the invariant, whatever is stored under a user's history key is a message list. */
  lemma HistorySlotHoldsMessages(st: Storage, u: string)
    requires StoreInvariant(st) && HistoryKey(u) in st
    ensures st[HistoryKey(u)].HistoryRecord? && |st[HistoryKey(u)].messages| <= HistoryCap
  {
    var r := st[HistoryKey(u)];
    assert RecordFits(HistoryKey(u), r);
    if r.SessionRecord? {
      KeysNeverCollide(r.session.userId, u);
      assert false;
    }
  }

  /** `start_session`: a fresh record, `metadata or {}` and an empty context. */
  function NewSession(userId: string, metadata: Context, now: string): Session
  {
    Session(userId, now, now, metadata, map[])
  }

  /** The session stored for a user, if any. */
  function StoredSession(st: Storage, u: string): Option<Session>
  {
    if SessionKey(u) in st && st[SessionKey(u)].SessionRecord? then Some(st[SessionKey(u)].session) else None
  }

  /** The history stored for a user, most recent first; [] when there is none. */
  function StoredHistory(st: Storage, u: string): seq<Message>
  {
    if HistoryKey(u) in st && st[HistoryKey(u)].HistoryRecord? then st[HistoryKey(u)].messages else []
  }

  /** The session `get_session` returns: the stored one, or a fresh one. */
  function SessionOf(st: Storage, u: string, now: string): Session
  {
    match StoredSession(st, u)
    case Some(s) => s
    case None => NewSession(u, map[], now)
  }

  /** The storage after `get_session`: a missing session is created and stored. */
  function AfterGetSession(st: Storage, u: string, now: string): Storage
  {
    if StoredSession(st, u).Some? then st else st[SessionKey(u) := SessionRecord(NewSession(u, map[], now))]
  }

  /** The storage after `update_session_context`: `context.update(updates)` and a new `last_activity`. */
  function AfterUpdateContext(st: Storage, u: string, updates: Context, now: string): Storage
  {
    var s := SessionOf(st, u, now);
    st[SessionKey(u) := SessionRecord(s.(context := s.context + updates, lastActivity := now))]
  }

  /** `insert(0, m)` followed by `[:50]`. */
  function PushMessage(h: seq<Message>, m: Message): (r: seq<Message>)
    ensures |r| == if |h| + 1 < HistoryCap then |h| + 1 else HistoryCap
    ensures r[0] == m
    ensures forall i :: 1 <= i < |r| ==> r[i] == h[i - 1]
  {
    var longer := [m] + h;
    if |longer| <= HistoryCap then longer else longer[..HistoryCap]
  }

  /** The storage after `add_message`. */
  function AfterAddMessage(st: Storage, u: string, m: Message): Storage
  {
    st[HistoryKey(u) := HistoryRecord(PushMessage(StoredHistory(st, u), m))]
  }

  /** `list(reversed(h))` */
  function Reversed<T>(h: seq<T>): (r: seq<T>)
    ensures |r| == |h|
  {
    seq(|h|, i requires 0 <= i < |h| => h[|h| - 1 - i])
  }

  /** One line of `get_context_string`: "User" only for the role "user", "Assistant" for any other. */
  function RenderLine(m: Message): string
  {
    (if m.role == "user" then "User" else "Assistant") + ": " + m.content
  }

  /** The lines rendered for a list of messages, in the list's order. */
  function RenderLines(h: seq<Message>): (r: seq<string>)
    ensures |r| == |h|
  {
    seq(|h|, i requires 0 <= i < |h| => RenderLine(h[i]))
  }

  /** What `get_context_string` builds from the recent history it fetched. */
  function ContextText(recent: seq<Message>): string
  {
    if recent == [] then "" else Join("\n", RenderLines(Reversed(recent)))
  }

  /** Appending a batch of messages (oldest first) to a history, one `add_message` at a time. */
  function PushAll(h: seq<Message>, ms: seq<Message>): seq<Message>
    decreases |ms|
  {
    if ms == [] then h else PushAll(PushMessage(h, ms[0]), ms[1..])
  }

  class ConversationManager {
    /** `memory_storage` */
    var storage: Storage

    ghost predicate Valid()
      reads this
    {
      StoreInvariant(storage)
    }

    constructor ()
      ensures Valid() && storage == map[]
    {
      storage := map[];
    }

    /** `start_session`: stores and returns a fresh session, replacing any stored one. */
    method StartSession(userId: string, metadata: Context, now: string) returns (s: Session)
      requires Valid()
      modifies this
      ensures Valid()
      ensures s == NewSession(userId, metadata, now) && s.context == map[]
      ensures storage == old(storage)[SessionKey(userId) := SessionRecord(s)]
    {
      s := Session(userId, now, now, metadata, map[]);
      storage := storage[SessionKey(userId) := SessionRecord(s)];
    }

    /** `get_session`: the stored session, or a new one with empty metadata and context. */
    method GetSession(userId: string, now: string) returns (s: Session)
      requires Valid()
      modifies this
      ensures Valid()
      ensures s == SessionOf(old(storage), userId, now) && s.userId == userId
      ensures storage == AfterGetSession(old(storage), userId, now)
      ensures StoredSession(storage, userId) == Some(s)
      ensures old(StoredSession(storage, userId)).Some? ==> storage == old(storage)
    {
      var key := SessionKey(userId);
      if key in storage {
        SessionSlotHoldsOwnSession(storage, userId);
        s := storage[key].session;
      } else {
        s := StartSession(userId, map[], now);
      }
    }

    /** `update_session_context`: merges `updates` into the (possibly new) session's context. */
    method UpdateSessionContext(userId: string, updates: Context, now: string)
      requires Valid()
      modifies this
      ensures Valid()
      ensures storage == AfterUpdateContext(old(storage), userId, updates, now)
    {
      var s := GetSession(userId, now);
      s := s.(context := s.context + updates, lastActivity := now);
      storage := storage[SessionKey(userId) := SessionRecord(s)];
    }

    /** `add_message`: the new entry goes first and the list is cut to 50. */
    method AddMessage(userId: string, role: string, content: string, metadata: Context, now: string)
      requires Valid()
      modifies this
      ensures Valid()
      ensures storage == AfterAddMessage(old(storage), userId, Message(role, content, now, metadata))
    {
      var m := Message(role, content, now, metadata);
      var key := HistoryKey(userId);
      if key !in storage {
        storage := storage[key := HistoryRecord([])];
      }
      HistorySlotHoldsMessages(storage, userId);
      var h := [m] + storage[key].messages;
      storage := storage[key := HistoryRecord(if |h| <= HistoryCap then h else h[..HistoryCap])];
    }

    /** `get_conversation_history`: the `limit` most recent entries, most recent first. */
    method GetConversationHistory(userId: string, limit: int) returns (h: seq<Message>)
      requires Valid()
      requires limit >= 1
      ensures h == Take(StoredHistory(storage, userId), limit)
      ensures |h| == if limit < |StoredHistory(storage, userId)| then limit else |StoredHistory(storage, userId)|
      ensures forall i :: 0 <= i < |h| ==> h[i] == StoredHistory(storage, userId)[i]
    {
      var key := HistoryKey(userId);
      if key in storage {
        HistorySlotHoldsMessages(storage, userId);
        var all := storage[key].messages;
        h := if limit < |all| then all[..limit] else all;
      } else {
        h := [];
      }
    }

    /** `get_context_string`: the recent entries, oldest first, one "User: "/"Assistant: " line each. */
    method GetContextString(userId: string, limit: int) returns (text: string)
      requires Valid()
      requires limit >= 1
      ensures text == ContextText(Take(StoredHistory(storage, userId), limit))
      ensures text == "" <==> StoredHistory(storage, userId) == []
    {
      var history := GetConversationHistory(userId, limit);
      if history == [] {
        return "";
      }
      var chronological := Reversed(history);
      var lines: seq<string> := [];
      var i := 0;
      while i < |chronological|
        invariant 0 <= i <= |chronological|
        invariant |lines| == i
        invariant forall j :: 0 <= j < i ==> lines[j] == RenderLine(chronological[j])
      {
        lines := lines + [RenderLine(chronological[i])];
        i := i + 1;
      }
      assert lines == RenderLines(chronological);
      text := Join("\n", lines);
      ContextTextEmpty(history);
    }

    /** `end_session`: removes the session record only; nothing happens when there is none. */
    method EndSession(userId: string)
      requires Valid()
      modifies this
      ensures Valid()
      ensures storage == old(storage) - {SessionKey(userId)}
      ensures StoredHistory(storage, userId) == old(StoredHistory(storage, userId))
    {
      var key := SessionKey(userId);
      if key in storage {
        storage := map k | k in storage && k != key :: storage[k];
      }
      KeysNeverCollide(userId, userId);
    }

    /** `clear_history`: removes the history record only. */
    method ClearHistory(userId: string)
      requires Valid()
      modifies this
      ensures Valid()
      ensures storage == old(storage) - {HistoryKey(userId)}
      ensures StoredSession(storage, userId) == old(StoredSession(storage, userId))
    {
      var key := HistoryKey(userId);
      if key in storage {
        storage := map k | k in storage && k != key :: storage[k];
      }
      KeysNeverCollide(userId, userId);
    }
  }

  /** The rendered context is empty exactly when there is nothing to render. */
  lemma ContextTextEmpty(recent: seq<Message>)
    ensures ContextText(recent) == "" <==> recent == []
  {
    if recent != [] {
      var lines := RenderLines(Reversed(recent));
      assert |lines[0]| > 0;
    }
  }

  /** Cutting after a prefix: cutting the tail first changes nothing. */
  lemma TakeAppend<T>(a: seq<T>, b: seq<T>, n: nat)
    ensures Take(a + Take(b, n), n) == Take(a + b, n)
  {
    var l := Take(a + Take(b, n), n);
    var r := Take(a + b, n);
    assert |l| == |r|;
    forall i | 0 <= i < |l|
      ensures l[i] == r[i]
    {
      if i >= |a| {
        assert (a + Take(b, n))[i] == Take(b, n)[i - |a|];
      }
    }
  }

  /**
   * Sending a batch of messages one `add_message` at a time leaves the batch, newest
   * first, in front of the old history, and keeps only the first 50 entries of that.
   */
  lemma {:induction false} PushAllKeepsNewest(h: seq<Message>, ms: seq<Message>)
    requires |h| <= HistoryCap
    ensures PushAll(h, ms) == Take(Reversed(ms) + h, HistoryCap)
    decreases |ms|
  {
    if ms == [] {
      assert Reversed(ms) + h == h;
    } else {
      var rest := ms[1..];
      var h' := PushMessage(h, ms[0]);
      PushIsTake(h, ms[0]);
      PushAllKeepsNewest(h', rest);
      TakeAppend(Reversed(rest), [ms[0]] + h, HistoryCap);
      ReversedFirst(ms, h);
    }
  }

  /** `add_message` on a history within the cap puts the message in front and cuts to the cap. */
  lemma PushIsTake(h: seq<Message>, m: Message)
    requires |h| <= HistoryCap
    ensures PushMessage(h, m) == Take([m] + h, HistoryCap)
  {
  }

  /** Reversing moves the first element behind the rest. */
  lemma ReversedFirst<T>(ms: seq<T>, h: seq<T>)
    requires ms != []
    ensures Reversed(ms[1..]) + ([ms[0]] + h) == Reversed(ms) + h
  {
    var l := Reversed(ms[1..]) + ([ms[0]] + h);
    var r := Reversed(ms) + h;
    assert |l| == |r|;
    forall i | 0 <= i < |l|
      ensures l[i] == r[i]
    {
      if i < |ms| - 1 {
        assert l[i] == ms[|ms| - 1 - i];
      } else if i == |ms| - 1 {
        assert l[i] == ms[0];
      }
    }
  }

  /**
   * The conversation a fresh user has had, as `get_context_string` shows it: the last
   * min(limit, 50, |ms|) messages sent, in the order they were sent.
   */
  lemma {:induction false} ContextShowsLatestInOrder(ms: seq<Message>, limit: nat)
    requires limit >= 1
    ensures var k := if limit < HistoryCap then limit else HistoryCap;
            var shown := if k < |ms| then k else |ms|;
            Reversed(Take(PushAll([], ms), limit)) == ms[|ms| - shown..]
  {
    PushAllKeepsNewest([], ms);
    assert Reversed(ms) + [] == Reversed(ms);
    var k := if limit < HistoryCap then limit else HistoryCap;
    TakeTake(Reversed(ms), HistoryCap, limit);
    LatestInOrder(ms, if k < |ms| then k else |ms|);
  }

  /** Cutting twice is cutting to the smaller length. */
  lemma TakeTake<T>(s: seq<T>, a: nat, b: nat)
    ensures Take(Take(s, a), b) == Take(s, if a < b then a else b)
  {
  }

  /** The first n of the reversed messages, reversed again, are the last n messages. */
  lemma LatestInOrder<T>(ms: seq<T>, n: nat)
    requires n <= |ms|
    ensures Reversed(Take(Reversed(ms), n)) == ms[|ms| - n..]
  {
    var recent := Take(Reversed(ms), n);
    forall j | 0 <= j < n
      ensures Reversed(recent)[j] == ms[|ms| - n + j]
    {
      assert Reversed(recent)[j] == recent[n - 1 - j];
    }
  }

  /**
   * `get_session` on a user without a session stores one with empty metadata and
   * context; a second call with no write in between finds that same session and
   * changes nothing.
   */
  lemma GetSessionTwice(st: Storage, u: string, now: string, later: string)
    ensures StoredSession(st, u).None? ==>
              StoredSession(AfterGetSession(st, u, now), u) == Some(NewSession(u, map[], now))
              && NewSession(u, map[], now).context == map[] && NewSession(u, map[], now).metadata == map[]
    ensures SessionOf(AfterGetSession(st, u, now), u, later) == SessionOf(st, u, now)
    ensures AfterGetSession(AfterGetSession(st, u, now), u, later) == AfterGetSession(st, u, now)
  {
  }

  /**
   * After `update_session_context` the user's session exists; every updated key holds
   * the update's value, every other key keeps the value it had in the session
   * `get_session` found or created, and an empty update leaves the context as it was.
   */
  lemma UpdateContextMerges(st: Storage, u: string, updates: Context, now: string)
    ensures StoredSession(AfterUpdateContext(st, u, updates, now), u).Some?
    ensures var after := StoredSession(AfterUpdateContext(st, u, updates, now), u).value.context;
            var before := SessionOf(st, u, now).context;
            && after.Keys == before.Keys + updates.Keys
            && (forall k | k in updates :: after[k] == updates[k])
            && (forall k | k in before && k !in updates :: after[k] == before[k])
            && (updates == map[] ==> after == before)
            && (StoredSession(st, u).None? ==> after == updates)
  {
    var before := SessionOf(st, u, now).context;
    if updates == map[] {
      assert before + updates == before;
    }
    if StoredSession(st, u).None? {
      assert map[] + updates == updates;
    }
  }
}
