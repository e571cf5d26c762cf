/**
 * The authenticated routes of the backend over an in-memory model of its
 * four tables. A `DB` value is one state of those tables; the functions
 * on it are the writes the routes make, and `Consistent` is the invariant
 * they keep. The classes `Session` (the cookie-bound session dict) and
 * `Store` (the database) are what the route methods change in place.
 *
 * Timestamps are ticks of a counter that every insert and every change of
 * `updated_at` advances; storing preferences sets no timestamp. The
 * conversation table is kept most recently updated first, which is the
 * order the routes read it in (`ORDER BY updated_at DESC`).
 */
module Backend {
  import opened Maybe
  import opened PyText
  import opened Json
  import opened MealPlan
  import opened ChatContext

  datatype User = User(id: nat, createdAt: nat)
  datatype Conversation = Conversation(id: nat, userId: nat, title: string, createdAt: nat, updatedAt: nat)
  datatype Message = Message(id: nat, convId: nat, role: Role, content: string, createdAt: nat)

  /** What a route answers: the JSON body of a 200, or an error status. */
  datatype Http<+T> = Success(body: T) | Unauthorized | NotFound | BadRequest | InternalError

  const DefaultConversationTitle: string := "New Conversation"
  const LegacyConversationTitle: string := "Coach"

  /** The rows of the four tables, the next id of each, and the clock. */
  datatype DB = DB(
    users: seq<User>,
    prefs: map<nat, JValue>,
    convs: seq<Conversation>,
    messages: seq<Message>,
    nextUserId: nat,
    nextConvId: nat,
    nextMsgId: nat,
    clock: nat)

  // ----- Queries -----

  /** `db.get(User, uid)`: the position of the user with that id. */
  function UserIndex(users: seq<User>, uid: nat): (r: Option<nat>)
    ensures r.Some? ==> r.value < |users| && users[r.value].id == uid
    ensures r.None? ==> forall k :: 0 <= k < |users| ==> users[k].id != uid
  {
    if users == [] then None
    else if users[|users| - 1].id == uid then Some(|users| - 1)
    else UserIndex(users[..|users| - 1], uid)
  }

  /** `db.get(Conversation, cid)`: the position of the conversation with that id. */
  function ConvIndex(convs: seq<Conversation>, cid: nat): (r: Option<nat>)
    ensures r.Some? ==> r.value < |convs| && convs[r.value].id == cid
    ensures r.None? ==> forall k :: 0 <= k < |convs| ==> convs[k].id != cid
  {
    if convs == [] then None
    else if convs[|convs| - 1].id == cid then Some(|convs| - 1)
    else ConvIndex(convs[..|convs| - 1], cid)
  }

  ghost predicate IncreasingIds(ms: seq<Message>) {
    forall j, k :: 0 <= j < k < |ms| ==> ms[j].id < ms[k].id
  }

  ghost predicate ByRecency(cs: seq<Conversation>) {
    forall j, k :: 0 <= j < k < |cs| ==> cs[j].updatedAt > cs[k].updatedAt
  }

  /** `c.messages`: the conversation's messages, in the order of the table (by id). */
  function MessagesOf(ms: seq<Message>, cid: nat): (r: seq<Message>)
    ensures forall m :: m in r <==> m in ms && m.convId == cid
    ensures IncreasingIds(ms) ==> IncreasingIds(r)
  {
    if ms == [] then []
    else
      var rest := MessagesOf(ms[1..], cid);
      assert forall m :: m in rest ==> m in ms[1..];
      if ms[0].convId == cid then [ms[0]] + rest else rest
  }

  /** The conversations of one user, most recently updated first. */
  function ConvsOf(cs: seq<Conversation>, uid: nat): (r: seq<Conversation>)
    ensures forall c :: c in r <==> c in cs && c.userId == uid
  {
    if cs == [] then []
    else
      var rest := ConvsOf(cs[1..], uid);
      assert forall c :: c in rest ==> c in cs[1..];
      if cs[0].userId == uid then [cs[0]] + rest else rest
  }

  /** The listing keeps the table's order, so it is most recently updated first. */
  lemma {:induction false} ConvsOfByRecency(cs: seq<Conversation>, uid: nat)
    requires ByRecency(cs)
    ensures ByRecency(ConvsOf(cs, uid))
    decreases |cs|
  {
    if cs != [] {
      var rest := ConvsOf(cs[1..], uid);
      assert ByRecency(cs[1..]);
      ConvsOfByRecency(cs[1..], uid);
      if cs[0].userId == uid {
        forall k | 0 <= k < |rest| ensures cs[0].updatedAt > rest[k].updatedAt {
          assert rest[k] in cs[1..];
          var i :| 0 <= i < |cs[1..]| && cs[1..][i] == rest[k];
          assert cs[i + 1] == rest[k];
        }
        ConsByRecency(cs[0], rest);
      }
    }
  }

  lemma ConsByRecency(c: Conversation, rest: seq<Conversation>)
    requires ByRecency(rest) && forall k :: 0 <= k < |rest| ==> c.updatedAt > rest[k].updatedAt
    ensures ByRecency([c] + rest)
  {
    var r := [c] + rest;
    forall j, k | 0 <= j < k < |r| ensures r[j].updatedAt > r[k].updatedAt {
      assert r[k] == rest[k - 1];
      if j > 0 { assert r[j] == rest[j - 1]; }
    }
  }

  /** The position of the user's most recently updated conversation, if any. */
  function LatestOf(cs: seq<Conversation>, uid: nat): (r: Option<nat>)
    ensures r.Some? ==> r.value < |cs| && cs[r.value].userId == uid
    ensures r.Some? ==> forall k :: 0 <= k < r.value ==> cs[k].userId != uid
    ensures r.None? ==> forall k :: 0 <= k < |cs| ==> cs[k].userId != uid
  {
    if cs == [] then None
    else if cs[0].userId == uid then Some(0)
    else
      match LatestOf(cs[1..], uid)
      case None => None
      case Some(k) => Some(k + 1)
  }

  /** The preferences stored for a user, or `{}` when there is no row. */
  function PrefsOf(prefs: map<nat, JValue>, uid: nat): JValue {
    if uid in prefs then prefs[uid] else JObj(map[])
  }

  /** `[{"role": m.role, "content": m.content} for m in ms]` */
  function AsChat(ms: seq<Message>): seq<Msg> {
    seq(|ms|, k requires 0 <= k < |ms| => Msg(ms[k].role, ms[k].content))
  }

  /** Rendering is message by message: the entries of a longer history extend those of its prefix. */
  lemma AsChatAppend(a: seq<Message>, b: seq<Message>)
    ensures AsChat(a + b) == AsChat(a) + AsChat(b)
  {
  }

  // ----- Writes -----

  /** Login's `User()` insert. */
  function AddUser(db: DB): DB {
    db.(users := db.users + [User.User(db.nextUserId, db.clock)],
        nextUserId := db.nextUserId + 1,
        clock := db.clock + 1)
  }

  /** The preferences row after `json.dumps(body.get("data") or {})`. */
  function SetPrefs(db: DB, uid: nat, data: JValue): DB {
    db.(prefs := db.prefs[uid := Or(data, JObj(map[]))])
  }

  /** A new conversation, which is the most recently updated one. */
  function NewConversation(db: DB, uid: nat, title: string): DB {
    db.(convs := [Conversation(db.nextConvId, uid, title, db.clock, db.clock)] + db.convs,
        nextConvId := db.nextConvId + 1,
        clock := db.clock + 1)
  }

  /** `c.updated_at = now` for the conversation at position `k`, which moves it to the front. */
  function Touch(cs: seq<Conversation>, k: nat, t: nat): seq<Conversation>
    requires k < |cs|
  {
    [cs[k].(updatedAt := t)] + cs[..k] + cs[k + 1..]
  }

  /** The user's message that a chat turn flushes to conversation `k`. */
  function UserTurn(db: DB, k: nat, text: string): Message
    requires k < |db.convs|
  {
    Message(db.nextMsgId, db.convs[k].id, Role.User, text, db.clock)
  }

  /**
   * The completion input of a chat turn. It is built after the user's
   * message is flushed, so the stored history it reads already ends with
   * that message.
   */
  function TurnContext(db: DB, uid: nat, k: nat, text: string, render: JValue -> string): seq<Msg>
    requires k < |db.convs|
  {
    var prefs := PrefsOf(db.prefs, uid);
    var history := MessagesOf(db.messages + [UserTurn(db, k, text)], db.convs[k].id);
    Context(SystemPrompt(prefs, render(prefs)), AsChat(history), text)
  }

  /** A committed chat turn: the user's and the assistant's message, and the conversation's new `updated_at`. */
  function Exchanged(db: DB, k: nat, text: string, reply: string): DB
    requires k < |db.convs|
  {
    var cid := db.convs[k].id;
    db.(messages := db.messages + [UserTurn(db, k, text), Message(db.nextMsgId + 1, cid, Assistant, reply, db.clock + 2)],
        convs := Touch(db.convs, k, db.clock + 1),
        nextMsgId := db.nextMsgId + 2,
        clock := db.clock + 3)
  }

  // ----- The invariant -----

  /** User ids are positive, increasing and below the next id; users were created in the past. */
  ghost predicate UsersOk(users: seq<User>, nextUserId: nat, clock: nat) {
    && 0 < nextUserId
    && (forall k :: 0 <= k < |users| ==> 0 < users[k].id < nextUserId && users[k].createdAt < clock)
    && (forall j, k :: 0 <= j < k < |users| ==> users[j].id < users[k].id)
  }

  /** Every preference row belongs to a stored user. */
  ghost predicate PrefsOk(prefs: map<nat, JValue>, users: seq<User>) {
    forall uid :: uid in prefs ==> UserIndex(users, uid).Some?
  }

  ghost predicate ConvOk(c: Conversation, users: seq<User>, nextConvId: nat, clock: nat) {
    c.id < nextConvId && c.createdAt <= c.updatedAt < clock && UserIndex(users, c.userId).Some?
  }

  ghost predicate DistinctConvIds(cs: seq<Conversation>) {
    forall j, k :: 0 <= j < k < |cs| ==> cs[j].id != cs[k].id
  }

  /** Conversations have distinct ids, belong to stored users, and are ordered by `updated_at`. */
  ghost predicate ConvsOk(cs: seq<Conversation>, users: seq<User>, nextConvId: nat, clock: nat) {
    && (forall k :: 0 <= k < |cs| ==> ConvOk(cs[k], users, nextConvId, clock))
    && DistinctConvIds(cs)
    && ByRecency(cs)
  }

  ghost predicate MessageOk(m: Message, convs: seq<Conversation>, nextMsgId: nat, clock: nat) {
    m.id < nextMsgId && m.createdAt < clock && ConvIndex(convs, m.convId).Some?
  }

  /** Messages are stored in id order and belong to stored conversations. */
  ghost predicate MessagesOk(ms: seq<Message>, convs: seq<Conversation>, nextMsgId: nat, clock: nat) {
    && (forall k :: 0 <= k < |ms| ==> MessageOk(ms[k], convs, nextMsgId, clock))
    && IncreasingIds(ms)
  }

  /** The invariant every route keeps. */
  ghost predicate Consistent(db: DB) {
    && UsersOk(db.users, db.nextUserId, db.clock)
    && PrefsOk(db.prefs, db.users)
    && ConvsOk(db.convs, db.users, db.nextConvId, db.clock)
    && MessagesOk(db.messages, db.convs, db.nextMsgId, db.clock)
  }

  ghost predicate KeepsUsers(users: seq<User>, users': seq<User>) {
    forall uid :: UserIndex(users, uid).Some? ==> UserIndex(users', uid).Some?
  }

  ghost predicate KeepsConvs(convs: seq<Conversation>, convs': seq<Conversation>) {
    forall cid :: ConvIndex(convs, cid).Some? ==> ConvIndex(convs', cid).Some?
  }

  lemma ConvsOkLater(cs: seq<Conversation>, users: seq<User>, users': seq<User>, n: nat, n': nat, c: nat, c': nat)
    requires ConvsOk(cs, users, n, c) && KeepsUsers(users, users') && n <= n' && c <= c'
    ensures ConvsOk(cs, users', n', c')
  {
    forall k | 0 <= k < |cs| ensures ConvOk(cs[k], users', n', c') {
      assert ConvOk(cs[k], users, n, c);
    }
  }

  lemma MessagesOkLater(ms: seq<Message>, convs: seq<Conversation>, convs': seq<Conversation>, n: nat, n': nat, c: nat, c': nat)
    requires MessagesOk(ms, convs, n, c) && KeepsConvs(convs, convs') && n <= n' && c <= c'
    ensures MessagesOk(ms, convs', n', c')
  {
    forall k | 0 <= k < |ms| ensures MessageOk(ms[k], convs', n', c') {
      assert MessageOk(ms[k], convs, n, c);
    }
  }

  lemma AddUserConsistent(db: DB)
    requires Consistent(db)
    ensures Consistent(AddUser(db))
  {
    var db' := AddUser(db);
    forall uid | UserIndex(db.users, uid).Some? ensures UserIndex(db'.users, uid).Some? {
      var j := UserIndex(db.users, uid).value;
      assert db'.users[j].id == uid;
    }
    ConvsOkLater(db.convs, db.users, db'.users, db.nextConvId, db.nextConvId, db.clock, db'.clock);
    MessagesOkLater(db.messages, db.convs, db.convs, db.nextMsgId, db.nextMsgId, db.clock, db'.clock);
  }

  lemma SetPrefsConsistent(db: DB, uid: nat, data: JValue)
    requires Consistent(db) && UserIndex(db.users, uid).Some?
    ensures Consistent(SetPrefs(db, uid, data))
  {
  }

  lemma NewConversationConsistent(db: DB, uid: nat, title: string)
    requires Consistent(db) && UserIndex(db.users, uid).Some?
    ensures Consistent(NewConversation(db, uid, title))
  {
    var db' := NewConversation(db, uid, title);
    assert db'.convs[1..] == db.convs;
    forall cid | ConvIndex(db.convs, cid).Some? ensures ConvIndex(db'.convs, cid).Some? {
      var j := ConvIndex(db.convs, cid).value;
      assert db'.convs[j + 1].id == cid;
    }
    ConvsOkLater(db.convs, db.users, db.users, db.nextConvId, db'.nextConvId, db.clock, db'.clock);
    MessagesOkLater(db.messages, db.convs, db'.convs, db.nextMsgId, db.nextMsgId, db.clock, db'.clock);
    assert ConvsOk(db'.convs, db.users, db'.nextConvId, db'.clock) by {
      forall k | 0 <= k < |db'.convs| ensures ConvOk(db'.convs[k], db.users, db'.nextConvId, db'.clock) {
        if k > 0 { assert db'.convs[k] == db.convs[k - 1]; }
      }
      forall j, k | 0 <= j < k < |db'.convs|
        ensures db'.convs[j].id != db'.convs[k].id && db'.convs[j].updatedAt > db'.convs[k].updatedAt
      {
        assert db'.convs[k] == db.convs[k - 1];
        if j > 0 { assert db'.convs[j] == db.convs[j - 1]; }
        else { assert ConvOk(db.convs[k - 1], db.users, db.nextConvId, db.clock); }
      }
    }
  }

  /** Where each conversation of `cs` sits after `Touch`. */
  lemma TouchPositions(cs: seq<Conversation>, k: nat, t: nat)
    requires k < |cs|
    ensures var ts := Touch(cs, k, t);
      && |ts| == |cs|
      && ts[0] == cs[k].(updatedAt := t)
      && (forall j :: 0 <= j < k ==> ts[j + 1] == cs[j])
      && (forall j :: k < j < |cs| ==> ts[j] == cs[j])
  {
  }

  lemma TouchKeepsConversations(cs: seq<Conversation>, k: nat, t: nat)
    requires k < |cs|
    ensures KeepsConvs(cs, Touch(cs, k, t))
  {
    var ts := Touch(cs, k, t);
    TouchPositions(cs, k, t);
    forall cid | ConvIndex(cs, cid).Some? ensures ConvIndex(ts, cid).Some? {
      var j := ConvIndex(cs, cid).value;
      if j < k { assert ts[j + 1].id == cid; }
      else if j == k { assert ts[0].id == cid; }
      else { assert ts[j].id == cid; }
    }
  }

  /** Touching with a time later than every `updated_at` keeps the conversations valid. */
  lemma TouchKeepsOrder(cs: seq<Conversation>, users: seq<User>, n: nat, c: nat, k: nat, t: nat, c': nat)
    requires k < |cs| && ConvsOk(cs, users, n, c) && c <= t < c'
    ensures ConvsOk(Touch(cs, k, t), users, n, c')
  {
    var ts := Touch(cs, k, t);
    TouchPositions(cs, k, t);
    forall b | 0 <= b < |ts| ensures ConvOk(ts[b], users, n, c') && (b > 0 ==> ts[b] == cs[if b <= k then b - 1 else b]) {
      if b == 0 { assert ConvOk(cs[k], users, n, c); }
      else { assert ConvOk(cs[if b <= k then b - 1 else b], users, n, c); }
    }
    forall a, b | 0 <= a < b < |ts| ensures ts[a].updatedAt > ts[b].updatedAt && ts[a].id != ts[b].id {
      var fb := if b <= k then b - 1 else b;
      assert ConvOk(cs[fb], users, n, c);
      if a > 0 {
        var fa := if a <= k then a - 1 else a;
        assert ts[a] == cs[fa] && fa < fb;
      }
    }
  }

  lemma AppendMessageOk(ms: seq<Message>, convs: seq<Conversation>, n: nat, c: nat, m: Message, c': nat)
    requires MessagesOk(ms, convs, n, c) && m.id == n && c <= c' && m.createdAt < c'
    requires ConvIndex(convs, m.convId).Some?
    ensures MessagesOk(ms + [m], convs, n + 1, c')
  {
    MessagesOkLater(ms, convs, convs, n, n + 1, c, c');
    var ms' := ms + [m];
    forall k | 0 <= k < |ms'| ensures MessageOk(ms'[k], convs, n + 1, c') {
      if k < |ms| { assert ms'[k] == ms[k]; }
    }
    forall j, k | 0 <= j < k < |ms'| ensures ms'[j].id < ms'[k].id {
      assert ms'[j] == ms[j];
      if k < |ms| { assert ms'[k] == ms[k]; } else { assert MessageOk(ms[j], convs, n, c); }
    }
  }

  lemma ExchangedMessagesOk(db: DB, k: nat, text: string, reply: string)
    requires MessagesOk(db.messages, db.convs, db.nextMsgId, db.clock) && k < |db.convs|
    requires KeepsConvs(db.convs, Touch(db.convs, k, db.clock + 1))
    ensures var db' := Exchanged(db, k, text, reply);
      MessagesOk(db'.messages, db'.convs, db'.nextMsgId, db'.clock)
  {
    var db' := Exchanged(db, k, text, reply);
    var cid := db.convs[k].id;
    var c := db.clock;
    MessagesOkLater(db.messages, db.convs, db'.convs, db.nextMsgId, db.nextMsgId, c, c);
    assert ConvIndex(db.convs, cid).Some?;
    var u := UserTurn(db, k, text);
    var a := Message(db.nextMsgId + 1, cid, Assistant, reply, c + 2);
    AppendMessageOk(db.messages, db'.convs, db.nextMsgId, c, u, c + 1);
    AppendMessageOk(db.messages + [u], db'.convs, db.nextMsgId + 1, c + 1, a, c + 3);
    assert db'.messages == db.messages + [u] + [a];
  }

  /** The four parts of the invariant, with a users table whose rows and counter only grew. */
  lemma ConsistentParts(db: DB, users: seq<User>, n: nat, c: nat)
    requires UsersOk(users, n, c) && db.users == users && db.nextUserId == n && c <= db.clock
    requires PrefsOk(db.prefs, db.users)
    requires ConvsOk(db.convs, db.users, db.nextConvId, db.clock)
    requires MessagesOk(db.messages, db.convs, db.nextMsgId, db.clock)
    ensures Consistent(db)
  {
  }

  lemma ExchangedConsistent(db: DB, k: nat, text: string, reply: string)
    requires Consistent(db) && k < |db.convs|
    ensures Consistent(Exchanged(db, k, text, reply))
  {
    var db' := Exchanged(db, k, text, reply);
    var ts := Touch(db.convs, k, db.clock + 1);
    assert db' == db.(messages := db'.messages, convs := ts, nextMsgId := db.nextMsgId + 2, clock := db.clock + 3);
    TouchKeepsOrder(db.convs, db.users, db.nextConvId, db.clock, k, db.clock + 1, db.clock + 3);
    TouchKeepsConversations(db.convs, k, db.clock + 1);
    ExchangedMessagesOk(db, k, text, reply);
    ConsistentParts(db', db.users, db.nextUserId, db.clock);
  }

  // ----- Properties of the queries and writes -----

  /** Appending a message to the table appends it to its conversation's history and to no other. */
  lemma {:induction false} MessagesOfAppend(ms: seq<Message>, m: Message, cid: nat)
    ensures MessagesOf(ms + [m], cid) == MessagesOf(ms, cid) + (if m.convId == cid then [m] else [])
  {
    if ms != [] {
      assert (ms + [m])[1..] == ms[1..] + [m];
      MessagesOfAppend(ms[1..], m, cid);
    }
  }

  /**
   * A chat turn appends exactly two messages to its conversation, the
   * user's and then the assistant's, leaves every other conversation's
   * history as it was, and gives the conversation a later `updated_at`.
   */
  lemma ExchangeAppendsTwo(db: DB, k: nat, text: string, reply: string, other: nat)
    requires ConvsOk(db.convs, db.users, db.nextConvId, db.clock) && k < |db.convs|
    ensures var db', cid := Exchanged(db, k, text, reply), db.convs[k].id;
      && MessagesOf(db'.messages, cid) == MessagesOf(db.messages, cid) + [
           Message(db.nextMsgId, cid, Role.User, text, db.clock),
           Message(db.nextMsgId + 1, cid, Assistant, reply, db.clock + 2)]
      && (other != cid ==> MessagesOf(db'.messages, other) == MessagesOf(db.messages, other))
      && ConvIndex(db'.convs, cid) == Some(0)
      && db'.convs[0].updatedAt == db.clock + 1 > db.convs[k].updatedAt
  {
    ExchangedHistories(db, k, text, reply, other);
    ExchangedToFront(db, k, text, reply);
  }

  lemma ExchangedHistories(db: DB, k: nat, text: string, reply: string, other: nat)
    requires k < |db.convs|
    ensures var db', cid := Exchanged(db, k, text, reply), db.convs[k].id;
      && MessagesOf(db'.messages, cid) == MessagesOf(db.messages, cid) + [
           Message(db.nextMsgId, cid, Role.User, text, db.clock),
           Message(db.nextMsgId + 1, cid, Assistant, reply, db.clock + 2)]
      && (other != cid ==> MessagesOf(db'.messages, other) == MessagesOf(db.messages, other))
  {
    var cid := db.convs[k].id;
    var u := UserTurn(db, k, text);
    var a := Message(db.nextMsgId + 1, cid, Assistant, reply, db.clock + 2);
    assert Exchanged(db, k, text, reply).messages == (db.messages + [u]) + [a];
    MessagesOfAppend(db.messages, u, cid);
    MessagesOfAppend(db.messages + [u], a, cid);
    assert MessagesOf(db.messages, cid) + [u] + [a] == MessagesOf(db.messages, cid) + [u, a];
    MessagesOfAppend(db.messages, u, other);
    MessagesOfAppend(db.messages + [u], a, other);
  }

  lemma ExchangedToFront(db: DB, k: nat, text: string, reply: string)
    requires ConvsOk(db.convs, db.users, db.nextConvId, db.clock) && k < |db.convs|
    ensures var db', cid := Exchanged(db, k, text, reply), db.convs[k].id;
      && ConvIndex(db'.convs, cid) == Some(0)
      && db'.convs[0].updatedAt == db.clock + 1 > db.convs[k].updatedAt
  {
    TouchedToFront(db.convs, db.users, db.nextConvId, db.clock, k);
    assert Exchanged(db, k, text, reply).convs == Touch(db.convs, k, db.clock + 1);
  }

  /** The touched conversation is found at the front, with an `updated_at` later than before. */
  lemma TouchedToFront(cs: seq<Conversation>, users: seq<User>, n: nat, c: nat, k: nat)
    requires k < |cs| && ConvsOk(cs, users, n, c)
    ensures ConvIndex(Touch(cs, k, c + 1), cs[k].id) == Some(0)
    ensures Touch(cs, k, c + 1)[0].updatedAt == c + 1 > cs[k].updatedAt
  {
    var ts := Touch(cs, k, c + 1);
    TouchKeepsOrder(cs, users, n, c, k, c + 1, c + 2);
    assert ConvOk(cs[k], users, n, c);
    assert ts[0].id == cs[k].id;
    var i := ConvIndex(ts, cs[k].id).value;
    assert DistinctConvIds(ts);
    assert ts[i].id == ts[0].id;
  }

  /**
   * Because the user's message is flushed before the history is read, the
   * completion input ends with the new turn twice: once as the newest
   * stored message and once appended after the window.
   */
  lemma TurnContextEndsWithTurn(db: DB, uid: nat, k: nat, text: string, render: JValue -> string)
    requires k < |db.convs|
    ensures var ctx := TurnContext(db, uid, k, text, render);
      && 3 <= |ctx| <= WindowSize + 2
      && ctx[|ctx| - 1] == Msg(Role.User, text)
      && ctx[|ctx| - 2] == Msg(Role.User, text)
  {
    var u := UserTurn(db, k, text);
    var cid := db.convs[k].id;
    var history := MessagesOf(db.messages + [u], cid);
    MessagesOfAppend(db.messages, u, cid);
    var chat := AsChat(history);
    var prefs := PrefsOf(db.prefs, uid);
    var sys := SystemPrompt(prefs, render(prefs));
    ContextShape(sys, chat, text);
    var ctx := Context(sys, chat, text);
    assert ctx[|ctx| - 2] == chat[|chat| - 1];
  }

  /** The listing holds exactly the user's conversations, the first being the one `LatestOf` picks. */
  lemma LatestHeadsListing(cs: seq<Conversation>, uid: nat)
    requires ByRecency(cs)
    ensures LatestOf(cs, uid).None? <==> ConvsOf(cs, uid) == []
    ensures LatestOf(cs, uid).Some? ==> ConvsOf(cs, uid)[0] == cs[LatestOf(cs, uid).value]
    ensures LatestOf(cs, uid).Some? ==> forall j :: 0 <= j < |cs| && cs[j].userId == uid && j != LatestOf(cs, uid).value ==>
      cs[j].updatedAt < cs[LatestOf(cs, uid).value].updatedAt
    decreases |cs|
  {
    if cs != [] && cs[0].userId != uid {
      assert ByRecency(cs[1..]);
      LatestHeadsListing(cs[1..], uid);
    }
  }

  /**
   * Login compares the stripped submission with `APP_PASSWORD` as it is
   * configured, so a password with whitespace at either end can never be
   * matched.
   */
  lemma PaddedPasswordLocksOut(password: string, submitted: Option<string>)
    requires password != [] && (IsSpace(password[0]) || IsSpace(password[|password| - 1]))
    ensures Strip(OrEmpty(submitted)) != password
  {
  }

  /** A password without surrounding whitespace matches itself, with or without padding. */
  lemma LoginAcceptsPassword(password: string, pad: string, pad': string)
    requires password != [] && !IsSpace(password[0]) && !IsSpace(password[|password| - 1])
    requires AllBlank(StrBlanks, pad) && AllBlank(StrBlanks, pad')
    ensures Strip(OrEmpty(Some(pad + password + pad'))) == password
  {
    var s := pad + password + pad';
    assert s[|pad|] == password[0];
    assert s[|pad| + |password| - 1] == password[|password| - 1];
    assert s[|pad|..|pad| + |password|] == password;
  }

  /**
   * The outcome of a chat turn on the conversation at position `k` of
   * `db`, for the user `uid`: a 500 and no change when the completion
   * raises, otherwise the stripped reply and the committed turn.
   */
  ghost predicate TurnOutcome(db: DB, k: nat, uid: nat, text: string, complete: seq<Msg> -> Option<string>,
                              render: JValue -> string, r: Http<string>, db': DB)
  {
    && k < |db.convs| && db.convs[k].userId == uid
    && var raw := complete(TurnContext(db, uid, k, text, render));
       && (raw.None? ==> r == InternalError && db' == db)
       && (raw.Some? ==> r == Success(Strip(raw.value)) && db' == Exchanged(db, k, text, Strip(raw.value)))
  }

  // ----- The session and the store -----

  /** The server-side session dict: `session["authed"]` and `session["user_id"]`. */
  class Session {
    var authed: bool
    var userId: Option<nat>

    /** A request without a session cookie. */
    constructor ()
      ensures !authed && userId == None
    {
      authed := false;
      userId := None;
    }
  }

  /** `require_auth`: `authed` is True and `user_id` is truthy. */
  predicate Admits(sess: Session)
    reads sess
  {
    sess.authed && sess.userId.Some? && sess.userId.value != 0
  }

  /** The `/plan` route, given what the completion returned (`None` when it raised) and `json.loads`. */
  method PlanRoute(sess: Session, completion: Option<string>, loads: string -> Option<JValue>) returns (r: Http<seq<Meal>>)
    ensures !Admits(sess) ==> r == Unauthorized
    ensures Admits(sess) && completion.None? ==> r == InternalError
    ensures Admits(sess) && completion.Some? ==>
      var plan := Plan(loads(Strip(completion.value)));
      r == if plan.Ok? then Success(plan.value) else InternalError
  {
    if !Admits(sess) {
      return Unauthorized;
    }
    if completion.None? {
      return InternalError;
    }
    var parsed := loads(Strip(completion.value));
    var meals := BuildPlan(MealsIn(parsed));
    if meals.Err? {
      return InternalError;
    }
    return Success(meals.value);
  }

  class Store {
    /** `APP_PASSWORD`, which must be set for the server to start. */
    const password: string
    var users: seq<User>
    var prefs: map<nat, JValue>
    var convs: seq<Conversation>
    var messages: seq<Message>
    var nextUserId: nat
    var nextConvId: nat
    var nextMsgId: nat
    var clock: nat

    function Snapshot(): DB
      reads this
    {
      DB(users, prefs, convs, messages, nextUserId, nextConvId, nextMsgId, clock)
    }

    ghost predicate Valid()
      reads this
    {
      password != [] && Consistent(Snapshot())
    }

    /** `db.commit()`: the rows and counters of `db` become the stored ones. */
    method Commit(db: DB)
      requires password != [] && Consistent(db)
      modifies this
      ensures Valid() && Snapshot() == db
    {
      users, prefs, convs, messages := db.users, db.prefs, db.convs, db.messages;
      nextUserId, nextConvId, nextMsgId, clock := db.nextUserId, db.nextConvId, db.nextMsgId, db.clock;
    }

    constructor (password: string)
      requires password != []
      ensures Valid() && this.password == password
      ensures Snapshot() == DB([], map[], [], [], 1, 1, 1, 0)
    {
      this.password := password;
      users, prefs, convs, messages := [], map[], [], [];
      nextUserId, nextConvId, nextMsgId, clock := 1, 1, 1, 0;
    }

    /** `require_auth` followed by `get_user`: the id of the signed-in user, when it is a stored user. */
    function Caller(sess: Session): Option<nat>
      reads this, sess
    {
      if Admits(sess) && UserIndex(users, sess.userId.value).Some? then Some(sess.userId.value) else None
    }

    /** `POST /login` */
    method Login(sess: Session, submitted: Option<string>) returns (r: Http<()>)
      requires Valid()
      modifies this, sess
      ensures Valid()
      ensures r.Success? <==> Strip(OrEmpty(submitted)) == password
      ensures !r.Success? ==> r == Unauthorized && unchanged(this, sess)
      ensures r.Success? ==>
        && Snapshot() == (if old(users) == [] then AddUser(old(Snapshot())) else old(Snapshot()))
        && sess.authed && sess.userId == Some(users[0].id) && Admits(sess)
    {
      var pwd := Strip(OrEmpty(submitted));
      if pwd != password {
        return Unauthorized;
      }
      if users == [] {
        AddUserConsistent(Snapshot());
        Commit(AddUser(Snapshot()));
      }
      sess.authed := true;
      sess.userId := Some(users[0].id);
      return Success(());
    }

    /** `POST /logout` */
    method Logout(sess: Session) returns (r: Http<()>)
      modifies sess
      ensures old(Admits(sess)) ==> r == Success(()) && !sess.authed && sess.userId == None
      ensures !old(Admits(sess)) ==> r == Unauthorized && unchanged(sess)
    {
      if !Admits(sess) {
        return Unauthorized;
      }
      sess.authed := false;
      sess.userId := None;
      return Success(());
    }

    /** `GET /me`: the user's id and stored preferences. */
    method Me(sess: Session) returns (r: Http<(nat, JValue)>)
      ensures Caller(sess).None? ==> r == Unauthorized
      ensures Caller(sess).Some? ==> r == Success((Caller(sess).value, PrefsOf(prefs, Caller(sess).value)))
    {
      var caller := Caller(sess);
      if caller.None? {
        return Unauthorized;
      }
      return Success((caller.value, PrefsOf(prefs, caller.value)));
    }

    /** `GET /preferences` */
    method GetPreferences(sess: Session) returns (r: Http<JValue>)
      ensures Caller(sess).None? ==> r == Unauthorized
      ensures Caller(sess).Some? ==> r == Success(PrefsOf(prefs, Caller(sess).value))
    {
      var caller := Caller(sess);
      if caller.None? {
        return Unauthorized;
      }
      return Success(PrefsOf(prefs, caller.value));
    }

    /** `POST /preferences`: a later `GET` answers the new data, or `{}` for falsy data. */
    method SetPreferences(sess: Session, data: JValue) returns (r: Http<()>)
      requires Valid()
      modifies this
      ensures Valid()
      ensures old(Caller(sess)).None? ==> r == Unauthorized && unchanged(this)
      ensures old(Caller(sess)).Some? ==>
        var uid := old(Caller(sess)).value;
        && r == Success(())
        && Snapshot() == SetPrefs(old(Snapshot()), uid, data)
        && PrefsOf(prefs, uid) == (if Truthy(data) then data else JObj(map[]))
    {
      var caller := Caller(sess);
      if caller.None? {
        return Unauthorized;
      }
      SetPrefsConsistent(Snapshot(), caller.value, data);
      Commit(SetPrefs(Snapshot(), caller.value, data));
      return Success(());
    }

    /** `GET /conversations`: the user's conversations, most recently updated first. */
    method ListConversations(sess: Session) returns (r: Http<seq<Conversation>>)
      requires Valid()
      ensures Caller(sess).None? ==> r == Unauthorized
      ensures Caller(sess).Some? ==>
        && r.Success?
        && (forall c :: c in r.body <==> c in convs && c.userId == Caller(sess).value)
        && ByRecency(r.body)
    {
      var caller := Caller(sess);
      if caller.None? {
        return Unauthorized;
      }
      ConvsOfByRecency(convs, caller.value);
      return Success(ConvsOf(convs, caller.value));
    }

    /** `POST /conversations`: a new conversation titled `title or "New Conversation"`. */
    method CreateConversation(sess: Session, title: Option<string>) returns (r: Http<(nat, string)>)
      requires Valid()
      modifies this
      ensures Valid()
      ensures old(Caller(sess)).None? ==> r == Unauthorized && unchanged(this)
      ensures old(Caller(sess)).Some? ==>
        var uid := old(Caller(sess)).value;
        var t := if OrEmpty(title) == [] then DefaultConversationTitle else OrEmpty(title);
        && r == Success((old(nextConvId), t))
        && Snapshot() == NewConversation(old(Snapshot()), uid, t)
        && ConvsOf(convs, uid) == [Conversation(old(nextConvId), uid, t, old(clock), old(clock))] + old(ConvsOf(convs, uid))
    {
      var caller := Caller(sess);
      if caller.None? {
        return Unauthorized;
      }
      var t := OrEmpty(title);
      if t == [] {
        t := DefaultConversationTitle;
      }
      var id := nextConvId;
      NewConversationConsistent(Snapshot(), caller.value, t);
      Commit(NewConversation(Snapshot(), caller.value, t));
      assert convs[1..] == old(convs);
      return Success((id, t));
    }

    /** The conversation `cid` exists and belongs to `uid`. */
    function Owned(cid: nat, uid: nat): bool
      reads this
    {
      var k := ConvIndex(convs, cid);
      k.Some? && convs[k.value].userId == uid
    }

    /** `GET /conversations/<cid>/messages`: the history, in the order the messages were stored. */
    method GetMessages(sess: Session, cid: nat) returns (r: Http<seq<Message>>)
      requires Valid()
      ensures Caller(sess).None? ==> r == Unauthorized
      ensures Caller(sess).Some? && !Owned(cid, Caller(sess).value) ==> r == NotFound
      ensures Caller(sess).Some? && Owned(cid, Caller(sess).value) ==>
        && r.Success?
        && (forall m :: m in r.body <==> m in messages && m.convId == cid)
        && IncreasingIds(r.body)
    {
      var caller := Caller(sess);
      if caller.None? {
        return Unauthorized;
      }
      if !Owned(cid, caller.value) {
        return NotFound;
      }
      return Success(MessagesOf(messages, cid));
    }

    /**
     * One chat turn on the conversation at position `k`: flush the user's
     * message, ask the completion, then commit both messages and the new
     * `updated_at`. When the completion raises, the session is closed
     * without a commit and the flushed message is rolled back.
     */
    method Exchange(uid: nat, k: nat, text: string, complete: seq<Msg> -> Option<string>, render: JValue -> string)
      returns (reply: Option<string>)
      requires Valid() && k < |convs|
      modifies this
      ensures Valid()
      ensures var raw := complete(TurnContext(old(Snapshot()), uid, k, text, render));
        && (raw.None? ==> reply.None? && unchanged(this))
        && (raw.Some? ==> reply == Some(Strip(raw.value))
                          && Snapshot() == Exchanged(old(Snapshot()), k, text, Strip(raw.value)))
    {
      var raw := complete(TurnContext(Snapshot(), uid, k, text, render));
      if raw.None? {
        return None;
      }
      var answer := Strip(raw.value);
      // The user's message, the assistant's reply and the new `updated_at`, committed together.
      ExchangedConsistent(Snapshot(), k, text, answer);
      Commit(Exchanged(Snapshot(), k, text, answer));
      return Some(answer);
    }

    /** `POST /conversations/<cid>/messages`: answers the reply and the assistant message's id. */
    method PostMessage(sess: Session, cid: nat, message: Option<string>,
                       complete: seq<Msg> -> Option<string>, render: JValue -> string)
      returns (r: Http<(string, nat)>)
      requires Valid()
      modifies this
      ensures Valid()
      ensures old(Caller(sess)).None? ==> r == Unauthorized && unchanged(this)
      ensures old(Caller(sess)).Some? && !old(Owned(cid, Caller(sess).value)) ==> r == NotFound && unchanged(this)
      ensures old(Caller(sess)).Some? && old(Owned(cid, Caller(sess).value)) && Strip(OrEmpty(message)) == [] ==>
        r == BadRequest && unchanged(this)
      ensures old(Caller(sess)).Some? && old(Owned(cid, Caller(sess).value)) && Strip(OrEmpty(message)) != [] ==>
        var uid, text, k := old(Caller(sess)).value, Strip(OrEmpty(message)), old(ConvIndex(convs, cid)).value;
        var raw := complete(TurnContext(old(Snapshot()), uid, k, text, render));
        && (raw.None? ==> r == InternalError && unchanged(this))
        && (raw.Some? ==> r == Success((Strip(raw.value), old(nextMsgId) + 1))
                          && Snapshot() == Exchanged(old(Snapshot()), k, text, Strip(raw.value)))
    {
      var caller := Caller(sess);
      if caller.None? {
        return Unauthorized;
      }
      if !Owned(cid, caller.value) {
        return NotFound;
      }
      var text := Strip(OrEmpty(message));
      if text == [] {
        return BadRequest;
      }
      var id := nextMsgId + 1;
      var reply := Exchange(caller.value, ConvIndex(convs, cid).value, text, complete, render);
      if reply.None? {
        return InternalError;
      }
      return Success((reply.value, id));
    }

    /**
     * `POST /chat`: a turn on the user's most recently updated
     * conversation, or on a new one titled "Coach" (committed before the
     * completion is asked). Unlike the route above, an empty message is
     * not refused.
     */
    method ChatLegacy(sess: Session, message: Option<string>,
                      complete: seq<Msg> -> Option<string>, render: JValue -> string)
      returns (r: Http<string>)
      requires Valid()
      modifies this
      ensures Valid()
      ensures old(Caller(sess)).None? ==> r == Unauthorized && unchanged(this)
      ensures old(Caller(sess)).Some? && old(LatestOf(convs, Caller(sess).value)).None? ==>
        var uid := old(Caller(sess)).value;
        TurnOutcome(NewConversation(old(Snapshot()), uid, LegacyConversationTitle), 0, uid,
                    Strip(OrEmpty(message)), complete, render, r, Snapshot())
      ensures old(Caller(sess)).Some? && old(LatestOf(convs, Caller(sess).value)).Some? ==>
        var uid := old(Caller(sess)).value;
        TurnOutcome(old(Snapshot()), old(LatestOf(convs, uid)).value, uid,
                    Strip(OrEmpty(message)), complete, render, r, Snapshot())
    {
      var caller := Caller(sess);
      if caller.None? {
        return Unauthorized;
      }
      var uid := caller.value;
      var text := Strip(OrEmpty(message));
      var latest := LatestOf(convs, uid);
      var k := 0;
      if latest.None? {
        NewConversationConsistent(Snapshot(), uid, LegacyConversationTitle);
        Commit(NewConversation(Snapshot(), uid, LegacyConversationTitle));
      } else {
        k := latest.value;
      }
      ghost var before := Snapshot();
      var reply := Exchange(uid, k, text, complete, render);
      if reply.None? {
        r := InternalError;
      } else {
        r := Success(reply.value);
      }
      assert TurnOutcome(before, k, uid, text, complete, render, r, Snapshot());
    }
  }
}
