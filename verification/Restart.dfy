/**
 * db/db.go: what startup does with the turns the previous process left working.
 * Each query is the operation db/query/conversations.sql gives for it.
 */
module Restart {

  type Id = string

  datatype Kind = Agent | User | Tool | Error | Other

  /** bookkeeping: a synthetic row. endOfTurn: of an agent message whose data could be read. */
  datatype Message = Message(kind: Kind, generation: int, sequence: nat, bookkeeping: bool, endOfTurn: bool)

  /** managed: a child that is not a delegated subagent. */
  datatype Conversation = Conversation(
    child: bool,
    managed: bool,
    generation: int,
    working: bool,
    interrupted: bool,
    messages: seq<Message>)

  datatype Token = Token(id: Id, generation: int, maxUser: nat)

  // The latest real message

  predicate Real(m: Message, generation: int)
  {
    m.generation == generation && !m.bookkeeping && !m.kind.Other?
  }

  /** The last real message is an agent's, and ends its turn. */
  ghost predicate Ended(ms: seq<Message>, generation: int)
  {
    exists i :: 0 <= i < |ms| && LastReal(ms, generation, i) && ms[i].kind.Agent? && ms[i].endOfTurn
  }

  ghost predicate LastReal(ms: seq<Message>, generation: int, i: nat)
    requires i < |ms|
  {
    Real(ms[i], generation) && forall k :: i < k < |ms| ==> !Real(ms[k], generation)
  }

  method LatestTurnEndedWithAgent(ms: seq<Message>, generation: int) returns (ended: bool)
    ensures ended <==> Ended(ms, generation)
  {
    var i := |ms|;
    while i > 0
      invariant 0 <= i <= |ms| && forall k :: i <= k < |ms| ==> !Real(ms[k], generation)
    {
      i := i - 1;
      var m := ms[i];
      if m.generation != generation || m.bookkeeping { continue; }
      match m.kind {
        case Agent =>
          assert LastReal(ms, generation, i);
          assert forall j :: 0 <= j < |ms| && LastReal(ms, generation, j) ==> j == i;
          return m.endOfTurn;
        case User => assert LastReal(ms, generation, i); return false;
        case Tool => assert LastReal(ms, generation, i); return false;
        case Error => assert LastReal(ms, generation, i); return false;
        case Other =>
      }
    }
    return false;
  }

  lemma EndedSnoc(ms: seq<Message>, m: Message, generation: int)
    ensures Ended(ms + [m], generation) <==>
      if Real(m, generation) then m.kind.Agent? && m.endOfTurn else Ended(ms, generation)
  {
    var next := ms + [m];
    if Real(m, generation) {
      assert LastReal(next, generation, |ms|);
    } else {
      forall i | 0 <= i < |ms| ensures LastReal(next, generation, i) <==> LastReal(ms, generation, i) {
        if LastReal(ms, generation, i) {
          forall k | i < k < |next| ensures !Real(next[k], generation) { assert k < |ms| ==> next[k] == ms[k]; }
        }
        if LastReal(next, generation, i) {
          forall k | i < k < |ms| ensures !Real(ms[k], generation) { assert next[k] == ms[k]; }
        }
      }
      assert forall i :: 0 <= i < |ms| ==> next[i] == ms[i];
    }
  }

  /** The sequence number of the last user message, 0 if there is none. */
  function LastUser(ms: seq<Message>): nat
  {
    if ms == [] then 0 else if ms[|ms| - 1].kind.User? then ms[|ms| - 1].sequence else LastUser(ms[..|ms| - 1])
  }

  method FindLastUser(ms: seq<Message>) returns (n: nat)
    ensures n == LastUser(ms)
  {
    n := 0;
    for i := 0 to |ms|
      invariant n == LastUser(ms[..i])
    {
      assert ms[..i + 1][..i] == ms[..i];
      if ms[i].kind.User? { n := ms[i].sequence; }
    }
    assert ms[..|ms|] == ms;
  }

  // What one boot does to one conversation

  predicate UpgradeResumable(c: Conversation) { !c.child || !c.managed }

  ghost predicate Resumes(c: Conversation)
  {
    c.working && UpgradeResumable(c) && !Ended(c.messages, c.generation)
  }

  ghost function AfterUpgrade(c: Conversation): Conversation
  {
    if !c.working then c else if Resumes(c) then c.(interrupted := false) else c.(working := false, interrupted := false)
  }

  ghost function Marked(c: Conversation): Conversation
  {
    if !c.working then c
    else if c.child then c.(interrupted := false)
    else if Ended(c.messages, c.generation) then c
    else c.(interrupted := true)
  }

  ghost function AfterOrdinary(c: Conversation): Conversation { Marked(c).(working := false) }

  ghost function AfterBoot(c: Conversation, upgrade: bool): Conversation
  {
    if upgrade then AfterUpgrade(c) else AfterOrdinary(c)
  }

  function TokenOf(id: Id, c: Conversation): Token { Token(id, c.generation, LastUser(c.messages)) }

  type Table = map<Id, Conversation>

  ghost function WorkingIds(t: Table): set<Id> { set id | id in t && t[id].working }

  /** The table with the conversations in ids changed by f. */
  ghost function Changed(t: Table, ids: set<Id>, f: Conversation -> Conversation): (r: Table)
    ensures r.Keys == t.Keys
  {
    map id | id in t :: if id in ids then f(t[id]) else t[id]
  }

  lemma ChangedMore(t: Table, ids: set<Id>, f: Conversation -> Conversation, id: Id)
    requires id in t && id !in ids
    ensures Changed(t, ids + {id}, f) == Changed(t, ids, f)[id := f(t[id])]
    ensures f(t[id]) == t[id] ==> Changed(t, ids + {id}, f) == Changed(t, ids, f)
  {
  }

  lemma ChangedAll(t: Table, ids: set<Id>, upgrade: bool)
    requires ids == WorkingIds(t)
    ensures upgrade ==> Changed(t, ids, AfterUpgrade) == BootAll(t, true)
    ensures !upgrade ==> BootAll(t, false) == map id | id in t :: Changed(t, ids, Marked)[id].(working := false)
  {
  }

  lemma TokensAll(t: Table, tokens: seq<Token>)
    requires IsTokens(t, WorkingIds(t), tokens)
    ensures IsTokens(t, t.Keys, tokens)
  {
  }

  /** One token for each turn that resumes, and nothing else. */
  ghost predicate IsTokens(t: Table, ids: set<Id>, tokens: seq<Token>)
  {
    && (forall k :: 0 <= k < |tokens| ==>
        tokens[k].id in ids && tokens[k].id in t && Resumes(t[tokens[k].id]) && tokens[k] == TokenOf(tokens[k].id, t[tokens[k].id]))
    && (forall id :: id in ids && id in t && Resumes(t[id]) ==> TokenOf(id, t[id]) in tokens)
    && (forall j, k :: 0 <= j < k < |tokens| ==> tokens[j].id != tokens[k].id)
  }

  lemma TokensSnoc(t: Table, ids: set<Id>, tokens: seq<Token>, id: Id)
    requires IsTokens(t, ids, tokens) && id in t && id !in ids
    ensures Resumes(t[id]) ==> IsTokens(t, ids + {id}, tokens + [TokenOf(id, t[id])])
    ensures !Resumes(t[id]) ==> IsTokens(t, ids + {id}, tokens)
  {
  }

  ghost function BootAll(t: Table, upgrade: bool): (r: Table)
    ensures r.Keys == t.Keys
  {
    map id | id in t :: AfterBoot(t[id], upgrade)
  }

  class Database {
    var conversations: Table
    var marker: bool

    constructor (initial: Table, upgrade: bool)
      ensures conversations == initial && marker == upgrade
    {
      conversations, marker := initial, upgrade;
    }

    /** The ids in some order, each once. */
    method ListWorking() returns (ids: seq<Id>)
      ensures forall k :: 0 <= k < |ids| ==> ids[k] in conversations
      ensures forall j, k :: 0 <= j < k < |ids| ==> ids[j] != ids[k]
      ensures forall id :: id in ids <==> id in WorkingIds(conversations)
    {
      ids := [];
      var rest := set id | id in conversations && conversations[id].working;
      while rest != {}
        invariant rest <= WorkingIds(conversations)
        invariant forall k :: 0 <= k < |ids| ==> ids[k] in conversations && ids[k] !in rest
        invariant forall j, k :: 0 <= j < k < |ids| ==> ids[j] != ids[k]
        invariant forall id :: id in ids || id in rest <==> id in WorkingIds(conversations)
      {
        var id :| id in rest;
        ids, rest := ids + [id], rest - {id};
      }
    }

    /** Each working turn gets a token, or is cleared. */
    method ResumeWorking() returns (tokens: seq<Token>)
      modifies this`conversations
      ensures conversations == BootAll(old(conversations), true)
      ensures IsTokens(old(conversations), old(conversations).Keys, tokens)
    {
      ghost var t := conversations;
      ghost var done: set<Id> := {};
      var ids := ListWorking();
      tokens := [];
      for i := 0 to |ids|
        invariant done == set k | 0 <= k < i :: ids[k]
        invariant conversations == Changed(t, done, AfterUpgrade)
        invariant IsTokens(t, done, tokens)
      {
        var id := ids[i];
        var c := conversations[id];
        assert id in ids && id !in done && c == t[id] && c.working;
        ChangedMore(t, done, AfterUpgrade, id);
        TokensSnoc(t, done, tokens, id);
        var resumable := UpgradeResumable(c);
        if resumable {
          var ended := LatestTurnEndedWithAgent(c.messages, c.generation);
          resumable := !ended;
        }
        if resumable {
          conversations := conversations[id := c.(interrupted := false)];
          var maxUser := FindLastUser(c.messages);
          tokens := tokens + [Token(id, c.generation, maxUser)];
        } else {
          conversations := conversations[id := c.(working := false, interrupted := false)];
        }
        done := done + {id};
      }
      assert done == WorkingIds(t) by { assert forall id :: id in done <==> id in ids; }
      ChangedAll(t, done, true);
      TokensAll(t, tokens);
    }

    /** Each unfinished top-level turn is marked; then nothing is left working. */
    method InterruptWorking()
      modifies this`conversations
      ensures conversations == BootAll(old(conversations), false)
    {
      ghost var t := conversations;
      ghost var done: set<Id> := {};
      var ids := ListWorking();
      for i := 0 to |ids|
        invariant done == set k | 0 <= k < i :: ids[k]
        invariant conversations == Changed(t, done, Marked)
      {
        var id := ids[i];
        var c := conversations[id];
        assert id in ids && id !in done && c == t[id] && c.working;
        ChangedMore(t, done, Marked, id);
        done := done + {id};
        if c.child {
          conversations := conversations[id := c.(interrupted := false)];
          continue;
        }
        var ended := LatestTurnEndedWithAgent(c.messages, c.generation);
        if ended { continue; }
        conversations := conversations[id := c.(interrupted := true)];
      }
      assert done == WorkingIds(t) by { assert forall id :: id in done <==> id in ids; }
      ChangedAll(t, done, false);
      conversations := map id | id in conversations :: conversations[id].(working := false);
    }

    /** ConsumeResumeAfterUpgrade */
    method Boot() returns (tokens: seq<Token>)
      modifies this
      ensures !marker && conversations == BootAll(old(conversations), old(marker))
      ensures if old(marker) then IsTokens(old(conversations), old(conversations).Keys, tokens) else tokens == []
    {
      var upgrade := marker;
      marker := false;
      if upgrade {
        tokens := ResumeWorking();
      } else {
        InterruptWorking();
        tokens := [];
      }
    }
  }
}
