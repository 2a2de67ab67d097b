/**
 The dialogue check of a learning trace (apps/contracts/src/return_agent_contracts/models.py):
 one pass with two growing sets, against a statement about all turns of the trace.
 */
module LearningTrace {
  import opened Common

  datatype Turn = Turn(ref: string, agent: bool, request: Option<string>)

  datatype Node = ParseRequest | RequestClarification | RequestEvidence | EmitResolution | OtherNode

  datatype Event = Event(id: string, sequence: nat, node: Node, clarification: Option<string>, evidence: Option<string>,
                         dialogue: seq<Turn>, dialogueMissing: bool, responses: seq<string>)

  function Requests(event: Event): set<string> {
    (if event.clarification.Some? then {event.clarification.value} else {}) + (if event.evidence.Some? then {event.evidence.value} else {})
  }

  function Replies(dialogue: seq<Turn>): seq<Turn> {
    if dialogue == [] then []
    else
      var last := dialogue[|dialogue| - 1];
      Replies(dialogue[..|dialogue| - 1]) + if last.agent then [] else [last]
  }

  /** What the replies of one event must be. */
  predicate RepliesOk(event: Event) {
    var replies := Replies(event.dialogue);
    event.dialogueMissing ||
    (&& (event.sequence == 1 ==> |replies| == 1 && replies[0].request.None?)
     && (event.node == RequestClarification || event.node == RequestEvidence ==>
           && |replies| == 1 && replies[0].request.Some? && replies[0].request.value in Requests(event)
           && (event.node == RequestClarification ==> event.responses == [replies[0].ref])))
  }

  // ------------------------------------------------------------------ the statement

  predicate Spoken(events: seq<Event>, i: int, j: int) { 0 <= i < |events| && 0 <= j < |events[i].dialogue| }

  function TurnAt(events: seq<Event>, i: int, j: int): Turn
    requires Spoken(events, i, j)
  {
    events[i].dialogue[j]
  }

  /** The turns before turn `m` of event `n`. */
  predicate Seen(events: seq<Event>, n: int, m: int, i: int, j: int) { Spoken(events, i, j) && (i < n || (i == n && j < m)) }

  predicate Asks(events: seq<Event>, i: int, j: int, request: string) {
    Spoken(events, i, j) && TurnAt(events, i, j).agent && TurnAt(events, i, j).request == Some(request)
  }

  /** Before turn `m` of event `n`, an agent turn has asked the request. */
  ghost predicate Asked(events: seq<Event>, n: int, m: int, request: string) {
    exists i, j :: Seen(events, n, m, i, j) && Asks(events, i, j, request)
  }

  predicate SameTurn(events: seq<Event>, i: int, j: int, k: int, l: int) {
    Spoken(events, i, j) && Spoken(events, k, l) && TurnAt(events, i, j).ref == TurnAt(events, k, l).ref ==> i == k && j == l
  }

  /** An agent turn cites its own event; a user turn that cites a request comes after an agent turn that asked it. */
  ghost predicate TurnOk(events: seq<Event>, i: int, j: int)
    requires Spoken(events, i, j)
  {
    var turn := TurnAt(events, i, j);
    if turn.agent then turn.request.Some? && turn.request.value in Requests(events[i])
    else turn.request.Some? ==> Asked(events, i, j, turn.request.value)
  }

  ghost predicate EventOk(events: seq<Event>, n: int)
    requires 0 <= n < |events|
  {
    && (forall j :: Spoken(events, n, j) ==> TurnOk(events, n, j))
    && (forall request :: request in Requests(events[n]) ==> Asked(events, n + 1, 0, request))
    && RepliesOk(events[n])
  }

  /** Turn references are unique, and every event's turns, requests and replies fit together. */
  ghost predicate DialogueOk(events: seq<Event>) {
    && (forall i, j, k, l :: SameTurn(events, i, j, k, l))
    && forall n :: 0 <= n < |events| ==> EventOk(events, n)
  }

  // ------------------------------------------------------------------ the pass

  ghost predicate Tracked(events: seq<Event>, n: int, m: int, turns: set<string>, requests: set<string>) {
    && (forall i, j :: Seen(events, n, m, i, j) ==> TurnAt(events, i, j).ref in turns)
    && (forall ref :: ref in turns ==> exists i, j :: Seen(events, n, m, i, j) && TurnAt(events, i, j).ref == ref)
    && RequestsAre(events, n, m, requests)
    && SeenDiffer(events, n, m)
  }

  ghost predicate RequestsAre(events: seq<Event>, n: int, m: int, requests: set<string>) {
    forall request :: request in requests <==> Asked(events, n, m, request)
  }

  ghost predicate SeenDiffer(events: seq<Event>, n: int, m: int) {
    forall i, j, k, l :: Seen(events, n, m, i, j) && Seen(events, n, m, k, l) ==> SameTurn(events, i, j, k, l)
  }

  lemma TrackTurn(events: seq<Event>, n: int, m: int, turns: set<string>, requests: set<string>)
    requires Tracked(events, n, m, turns, requests) && Spoken(events, n, m) && TurnAt(events, n, m).ref !in turns
    requires TurnAt(events, n, m).agent ==> TurnAt(events, n, m).request.Some?
    ensures var turn := TurnAt(events, n, m);
      Tracked(events, n, m + 1, turns + {turn.ref}, if turn.agent then requests + {turn.request.value} else requests)
  {
    var turn := TurnAt(events, n, m);
    assert Seen(events, n, m + 1, n, m);
    assert forall i, j :: Seen(events, n, m + 1, i, j) <==> Seen(events, n, m, i, j) || (i == n && j == m);
    forall ref | ref in turns + {turn.ref}
      ensures exists i, j :: Seen(events, n, m + 1, i, j) && TurnAt(events, i, j).ref == ref
    {
      if ref in turns {
        var i, j :| Seen(events, n, m, i, j) && TurnAt(events, i, j).ref == ref;
        assert Seen(events, n, m + 1, i, j);
      }
    }
    TrackRequests(events, n, m, requests);
    forall i, j, k, l | Seen(events, n, m + 1, i, j) && Seen(events, n, m + 1, k, l)
      ensures SameTurn(events, i, j, k, l)
    {
      if Seen(events, n, m, i, j) && Seen(events, n, m, k, l) { assert SameTurn(events, i, j, k, l); }
    }
  }

  lemma TrackRequests(events: seq<Event>, n: int, m: int, requests: set<string>)
    requires RequestsAre(events, n, m, requests) && Spoken(events, n, m)
    requires TurnAt(events, n, m).agent ==> TurnAt(events, n, m).request.Some?
    ensures var turn := TurnAt(events, n, m);
      RequestsAre(events, n, m + 1, if turn.agent then requests + {turn.request.value} else requests)
  {
    var turn := TurnAt(events, n, m);
    var later := if turn.agent then requests + {turn.request.value} else requests;
    forall request
      ensures request in later <==> Asked(events, n, m + 1, request)
    {
      if request in requests {
        var i, j :| Seen(events, n, m, i, j) && Asks(events, i, j, request);
        assert Seen(events, n, m + 1, i, j);
      } else if request in later {
        assert Seen(events, n, m + 1, n, m) && Asks(events, n, m, request);
      }
      if Asked(events, n, m + 1, request) {
        var i, j :| Seen(events, n, m + 1, i, j) && Asks(events, i, j, request);
        if i != n || j != m { assert Seen(events, n, m, i, j); }
      }
    }
  }

  lemma SeenMovesOn(events: seq<Event>, n: int)
    requires 0 <= n < |events|
    ensures forall i, j :: Seen(events, n, |events[n].dialogue|, i, j) <==> Seen(events, n + 1, 0, i, j)
    ensures forall request :: Asked(events, n, |events[n].dialogue|, request) <==> Asked(events, n + 1, 0, request)
  {
    var m, next := |events[n].dialogue|, n + 1;
    forall request
      ensures Asked(events, n, m, request) <==> Asked(events, next, 0, request)
    {
      if Asked(events, n, m, request) {
        var i, j :| Seen(events, n, m, i, j) && Asks(events, i, j, request);
        assert Seen(events, next, 0, i, j);
      }
      if Asked(events, next, 0, request) {
        var i, j :| Seen(events, next, 0, i, j) && Asks(events, i, j, request);
        assert Seen(events, n, m, i, j);
      }
    }
  }

  lemma TrackEvent(events: seq<Event>, n: int, turns: set<string>, requests: set<string>)
    requires 0 <= n < |events| && Tracked(events, n, |events[n].dialogue|, turns, requests)
    ensures Tracked(events, n + 1, 0, turns, requests)
  {
    SeenMovesOn(events, n);
    var m, next := |events[n].dialogue|, n + 1;
    forall ref | ref in turns
      ensures exists i, j :: Seen(events, next, 0, i, j) && TurnAt(events, i, j).ref == ref
    {
      var i, j :| Seen(events, n, m, i, j) && TurnAt(events, i, j).ref == ref;
      assert Seen(events, next, 0, i, j);
    }
  }

  predicate TurnFits(turn: Turn, own: set<string>, requests: set<string>) {
    if turn.agent then turn.request.Some? && turn.request.value in own else turn.request.Some? ==> turn.request.value in requests
  }

  lemma StrayTurnIsRefused(events: seq<Event>, n: nat, m: nat, requests: set<string>)
    requires Spoken(events, n, m) && RequestsAre(events, n, m, requests)
    requires !TurnFits(TurnAt(events, n, m), Requests(events[n]), requests)
    ensures !DialogueOk(events)
  {
    assert !TurnOk(events, n, m) && !EventOk(events, n);
  }

  lemma RepeatIsRefused(events: seq<Event>, n: nat, m: nat, turns: set<string>, requests: set<string>)
    requires Spoken(events, n, m) && Tracked(events, n, m, turns, requests) && TurnAt(events, n, m).ref in turns
    ensures !DialogueOk(events)
  {
    var i, j :| Seen(events, n, m, i, j) && TurnAt(events, i, j).ref == TurnAt(events, n, m).ref;
    assert !SameTurn(events, i, j, n, m);
  }

  /** The turns of one event. */
  method CheckTurns(events: seq<Event>, n: nat, turns: set<string>, requests: set<string>)
    returns (ok: bool, laterTurns: set<string>, laterRequests: set<string>)
    requires n < |events| && Tracked(events, n, 0, turns, requests)
    ensures ok ==> Tracked(events, n, |events[n].dialogue|, laterTurns, laterRequests) && forall j :: Spoken(events, n, j) ==> TurnOk(events, n, j)
    ensures !ok ==> !DialogueOk(events)
  {
    laterTurns, laterRequests := turns, requests;
    var own := Requests(events[n]);
    var m := 0;
    while m < |events[n].dialogue|
      invariant 0 <= m <= |events[n].dialogue|
      invariant Tracked(events, n, m, laterTurns, laterRequests)
      invariant forall j :: 0 <= j < m ==> TurnOk(events, n, j)
    {
      assert Spoken(events, n, m);
      var turn := events[n].dialogue[m];
      if turn.ref in laterTurns {
        RepeatIsRefused(events, n, m, laterTurns, laterRequests);
        return false, laterTurns, laterRequests;
      }
      if !TurnFits(turn, own, laterRequests) {
        StrayTurnIsRefused(events, n, m, laterRequests);
        return false, laterTurns, laterRequests;
      }
      assert TurnOk(events, n, m);
      TrackTurn(events, n, m, laterTurns, laterRequests);
      if turn.agent {
        laterRequests := laterRequests + {turn.request.value};
      }
      laterTurns := laterTurns + {turn.ref};
      m := m + 1;
    }
    ok := true;
  }

  /** _validate_dialogue_provenance */
  method ValidateDialogue(events: seq<Event>) returns (ok: bool)
    ensures ok <==> DialogueOk(events)
  {
    var turns: set<string>, requests: set<string> := {}, {};
    var n := 0;
    while n < |events|
      invariant 0 <= n <= |events|
      invariant Tracked(events, n, 0, turns, requests)
      invariant forall k :: 0 <= k < n ==> EventOk(events, k)
    {
      var fine: bool;
      fine, turns, requests := CheckTurns(events, n, turns, requests);
      if !fine {
        return false;
      }
      SeenMovesOn(events, n);
      if !(Requests(events[n]) <= requests) || !RepliesOk(events[n]) {
        assert !EventOk(events, n);
        return false;
      }
      TrackEvent(events, n, turns, requests);
      n := n + 1;
    }
    forall i, j, k, l
      ensures SameTurn(events, i, j, k, l)
    {
      if Spoken(events, i, j) && Spoken(events, k, l) { assert Seen(events, |events|, 0, i, j) && Seen(events, |events|, 0, k, l); }
    }
    return true;
  }

  // ------------------------------------------------------------------ what it is for

  lemma {:induction false} RepliesAreTurns(dialogue: seq<Turn>, k: nat)
    requires k < |Replies(dialogue)|
    ensures exists j :: 0 <= j < |dialogue| && !dialogue[j].agent && dialogue[j] == Replies(dialogue)[k]
  {
    var last := |dialogue| - 1;
    if k < |Replies(dialogue[..last])| {
      RepliesAreTurns(dialogue[..last], k);
      var j :| 0 <= j < last && !dialogue[..last][j].agent && dialogue[..last][j] == Replies(dialogue[..last])[k];
      assert dialogue[j] == Replies(dialogue)[k];
    } else {
      assert dialogue[last] == Replies(dialogue)[k];
    }
  }

  /** Turn `j` is the only user turn of the dialogue. */
  predicate OnlyReply(dialogue: seq<Turn>, j: int) {
    0 <= j < |dialogue| && forall k :: 0 <= k < |dialogue| ==> (dialogue[k].agent <==> k != j)
  }

  lemma {:induction false} NoReply(dialogue: seq<Turn>)
    ensures Replies(dialogue) == [] <==> forall k :: 0 <= k < |dialogue| ==> dialogue[k].agent
  {
    if dialogue != [] {
      NoReply(dialogue[..|dialogue| - 1]);
      assert forall k :: 0 <= k < |dialogue| - 1 ==> dialogue[..|dialogue| - 1][k] == dialogue[k];
    }
  }

  lemma {:induction false} OnlyReplyIs(dialogue: seq<Turn>, j: int)
    requires OnlyReply(dialogue, j)
    ensures Replies(dialogue) == [dialogue[j]]
  {
    var earlier := dialogue[..|dialogue| - 1];
    assert forall k :: 0 <= k < |earlier| ==> earlier[k] == dialogue[k];
    if j < |earlier| {
      assert dialogue[|earlier|].agent && OnlyReply(earlier, j);
      OnlyReplyIs(earlier, j);
    } else {
      NoReply(earlier);
    }
  }

  lemma {:induction false} OneReply(dialogue: seq<Turn>) returns (j: int)
    requires |Replies(dialogue)| == 1
    ensures OnlyReply(dialogue, j) && Replies(dialogue) == [dialogue[j]]
  {
    var earlier := dialogue[..|dialogue| - 1];
    NoReply(earlier);
    assert forall k :: 0 <= k < |earlier| ==> earlier[k] == dialogue[k];
    if dialogue[|earlier|].agent { j := OneReply(earlier); } else { j := |earlier|; }
    OnlyReplyIs(dialogue, j);
  }

  /** Turn `j` is the one user turn, and it answers nothing. */
  predicate Opens(event: Event, j: int) { OnlyReply(event.dialogue, j) && event.dialogue[j].request == None }

  /** Turn `j` is the one user turn, and it answers a request of the step; a clarification has it as its one response. */
  predicate Answers(event: Event, j: int) {
    && OnlyReply(event.dialogue, j)
    && event.dialogue[j].request.Some? && event.dialogue[j].request in {event.clarification, event.evidence}
    && (event.node == RequestClarification ==> event.responses == [event.dialogue[j].ref])
  }

  /** What the replies of a step must be, exactly: the first step is opened by the user, an input step is answered, unless its dialogue is missing. */
  lemma RepliesAreExact(event: Event)
    ensures event.dialogueMissing ==> RepliesOk(event)
    ensures !event.dialogueMissing ==>
      (RepliesOk(event) <==>
         && (event.sequence == 1 ==> exists j :: Opens(event, j))
         && (event.node in {RequestClarification, RequestEvidence} ==> exists j :: Answers(event, j)))
  {
    if |Replies(event.dialogue)| == 1 {
      var j := OneReply(event.dialogue);
      assert forall k :: OnlyReply(event.dialogue, k) ==> k == j;
      var turn := event.dialogue[j];
      assert turn.request.Some? ==> (turn.request.value in Requests(event) <==> turn.request in {event.clarification, event.evidence});
      assert (exists k :: Opens(event, k)) <==> Opens(event, j);
      assert (exists k :: Answers(event, k)) <==> Answers(event, j);
    } else {
      forall k | OnlyReply(event.dialogue, k) ensures false { OnlyReplyIs(event.dialogue, k); }
    }
  }

  /**
   In an accepted trace every completed input step holds exactly one user reply, and before it an
   agent turn asked for it in the step's own request.
   */
  lemma ReplyFollowsItsRequest(events: seq<Event>, n: nat)
    requires DialogueOk(events) && n < |events| && !events[n].dialogueMissing
    requires events[n].node == RequestClarification || events[n].node == RequestEvidence
    ensures exists j, i, k :: ReplyAnswers(events, n, j, i, k)
  {
    assert EventOk(events, n);
    RepliesAreTurns(events[n].dialogue, 0);
    var j :| 0 <= j < |events[n].dialogue| && !events[n].dialogue[j].agent && events[n].dialogue[j] == Replies(events[n].dialogue)[0];
    assert Spoken(events, n, j) && TurnOk(events, n, j);
    var request := TurnAt(events, n, j).request.value;
    var i, k :| Seen(events, n, j, i, k) && Asks(events, i, k, request);
    assert EventOk(events, i) && TurnOk(events, i, k);
    assert ReplyAnswers(events, n, j, i, k);
  }

  /** User turn `j` of event `n` answers a request of that event, which agent turn `k` of event `i` asked before. */
  predicate ReplyAnswers(events: seq<Event>, n: int, j: int, i: int, k: int) {
    && Spoken(events, n, j) && !TurnAt(events, n, j).agent && TurnAt(events, n, j).request.Some?
    && TurnAt(events, n, j).request.value in Requests(events[n])
    && Seen(events, n, j, i, k) && Asks(events, i, k, TurnAt(events, n, j).request.value)
    && TurnAt(events, n, j).request.value in Requests(events[i])
  }
}
