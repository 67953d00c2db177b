/**
 * The websocket command protocol: each inbound message is an already-decoded
 * structured map; a message with a "command" key gets exactly one response, and
 * the first message without one ends that connection's loop with no response.
 */
module Protocol {

  /** A decoded structured-encoding value (the msgpack types the protocol can carry). */
  datatype Value =
    | Nil
    | Bool(b: bool)
    | Int(i: int)
    | Str(s: string)
    | Bin(bytes: seq<bv8>)
    | Array(items: seq<Value>)
    | Map(entries: map<Value, Value>)

  /** An inbound message, decoded to a map. */
  type Request = map<Value, Value>

  /** An outbound message before it is packed. */
  type Response = map<Value, Value>

  const CommandKey: Value := Str("command")
  const SuccessKey: Value := Str("success")
  const ErrorsKey: Value := Str("errors")
  const StatusKey: Value := Str("status")

  const CheckConnection: Value := Str("check_connection")
  const GetStatus: Value := Str("get_status")

  /** The request carries a command and so is answered. */
  predicate HasCommand(req: Request) {
    CommandKey in req
  }

  /** The commands the handler recognises. */
  predicate IsKnownCommand(command: Value) {
    command == CheckConnection || command == GetStatus
  }

  /**
   * The wire shape of a non-empty response: the echoed command as a string, a
   * boolean success flag, a list of error strings, and optionally a status map,
   * with no other keys.
   */
  predicate IsWellFormedResponse(r: Response) {
    && r.Keys <= {CommandKey, SuccessKey, ErrorsKey, StatusKey}
    && CommandKey in r && r[CommandKey].Str?
    && SuccessKey in r && r[SuccessKey].Bool?
    && ErrorsKey in r && r[ErrorsKey].Array?
    && (forall e :: e in r[ErrorsKey].items ==> e.Str?)
    && (StatusKey in r ==> r[StatusKey].Map?)
  }

  /**
   * The response to one command value. A recognised command is echoed back with
   * success and no errors (and an empty status map for "get_status"); any other
   * value, of whatever type, gets the empty map.
   */
  function Dispatch(command: Value): (r: Response)
    ensures !IsKnownCommand(command) ==> r == map[]
    ensures IsKnownCommand(command) ==> IsWellFormedResponse(r) && r[CommandKey] == command
    ensures IsKnownCommand(command) ==> r[SuccessKey] == Bool(true) && r[ErrorsKey] == Array([])
    ensures StatusKey in r <==> command == GetStatus
    ensures StatusKey in r ==> r[StatusKey] == Map(map[])
  {
    if command == CheckConnection then
      map[CommandKey := CheckConnection, SuccessKey := Bool(true), ErrorsKey := Array([])]
    else if command == GetStatus then
      map[CommandKey := GetStatus, StatusKey := Map(map[]), SuccessKey := Bool(true), ErrorsKey := Array([])]
    else
      map[]
  }

  /**
   * The response to a request that carries a command: only that entry is read.
   * The response is non-empty exactly when the command is recognised, and then
   * it is well formed and echoes the request's command.
   */
  function Respond(req: Request): (r: Response)
    requires HasCommand(req)
    ensures CommandKey in r <==> IsKnownCommand(req[CommandKey])
    ensures !IsKnownCommand(req[CommandKey]) ==> r == map[]
    ensures CommandKey in r ==> IsWellFormedResponse(r) && r[CommandKey] == req[CommandKey]
  {
    Dispatch(req[CommandKey])
  }

  /** The two recognised commands get exactly the documented responses. */
  lemma KnownCommandResponses(req: Request)
    requires HasCommand(req)
    ensures req[CommandKey] == CheckConnection ==>
      Respond(req) == map[Str("command") := Str("check_connection"), Str("success") := Bool(true),
                          Str("errors") := Array([])]
    ensures req[CommandKey] == GetStatus ==>
      Respond(req) == map[Str("command") := Str("get_status"), Str("status") := Map(map[]),
                          Str("success") := Bool(true), Str("errors") := Array([])]
    ensures !IsKnownCommand(req[CommandKey]) ==> Respond(req) == map[]
  {
    var r := Respond(req);
    if req[CommandKey] == CheckConnection {
      assert r.Keys == {CommandKey, SuccessKey, ErrorsKey};
    } else if req[CommandKey] == GetStatus {
      assert r.Keys == {CommandKey, StatusKey, SuccessKey, ErrorsKey};
    }
  }

  /** Only the "command" entry of a request is read: the other keys never change the response. */
  lemma RespondReadsOnlyCommand(a: Request, b: Request)
    requires HasCommand(a) && HasCommand(b)
    requires a[CommandKey] == b[CommandKey]
    ensures Respond(a) == Respond(b)
  {
  }

  /**
   * The number of leading requests that all carry a command: every request
   * before the returned position has one, and the request at it (if any) does not.
   */
  function AnsweredCount(requests: seq<Request>): (n: nat)
    ensures n <= |requests|
    ensures forall i :: 0 <= i < n ==> HasCommand(requests[i])
    ensures n < |requests| ==> !HasCommand(requests[n])
  {
    if requests == [] || !HasCommand(requests[0]) then 0
    else 1 + AnsweredCount(requests[1..])
  }

  /** The responses a connection sends for an inbound message sequence, in order. */
  function Responses(requests: seq<Request>): (rs: seq<Response>)
  {
    if requests == [] || !HasCommand(requests[0]) then []
    else [Respond(requests[0])] + Responses(requests[1..])
  }

  /** One response per answered request, in request order, and nothing else. */
  lemma {:induction false} ResponsesArePairwise(requests: seq<Request>)
    ensures |Responses(requests)| == AnsweredCount(requests)
    ensures forall i :: 0 <= i < |Responses(requests)| ==>
      HasCommand(requests[i]) && Responses(requests)[i] == Respond(requests[i])
  {
    if requests != [] && HasCommand(requests[0]) {
      ResponsesArePairwise(requests[1..]);
    }
  }

  /** Once a request lacks a command, nothing received after it is processed. */
  lemma {:induction false} NothingAfterMalformed(before: seq<Request>, bad: Request, after: seq<Request>)
    requires !HasCommand(bad)
    ensures Responses(before + [bad] + after) == Responses(before)
  {
    if before == [] {
      assert (before + [bad] + after)[0] == bad;
    } else {
      assert (before + [bad] + after)[1..] == before[1..] + [bad] + after;
      if HasCommand(before[0]) {
        NothingAfterMalformed(before[1..], bad, after);
      }
    }
  }

  /**
   * Answering is incremental: after a run of well-formed requests, the
   * connection continues exactly as a fresh one fed the remaining messages.
   */
  lemma {:induction false} ResponsesAppend(answered: seq<Request>, rest: seq<Request>)
    requires forall i :: 0 <= i < |answered| ==> HasCommand(answered[i])
    ensures Responses(answered + rest) == Responses(answered) + Responses(rest)
  {
    if answered == [] {
      assert answered + rest == rest;
    } else {
      assert (answered + rest)[1..] == answered[1..] + rest;
      ResponsesAppend(answered[1..], rest);
    }
  }

  /**
   * The per-connection loop: walks the messages in order, sends one response for
   * each, and returns at the first message without a command, sending nothing for
   * it. `closed` tells whether the loop ended that way rather than by running out
   * of messages.
   */
  method HandleConnection(messages: seq<Request>) returns (sent: seq<Response>, closed: bool)
    ensures sent == Responses(messages)
    ensures |sent| == AnsweredCount(messages)
    ensures forall i :: 0 <= i < |sent| ==> HasCommand(messages[i]) && sent[i] == Respond(messages[i])
    ensures closed <==> |sent| < |messages|
    ensures closed ==> !HasCommand(messages[|sent|])
  {
    sent := [];
    var i := 0;
    while i < |messages|
      invariant 0 <= i <= |messages|
      invariant |sent| == i
      invariant forall j :: 0 <= j < i ==> HasCommand(messages[j]) && sent[j] == Respond(messages[j])
      invariant Responses(messages) == sent + Responses(messages[i..])
    {
      var message := messages[i];
      if !HasCommand(message) {
        assert Responses(messages[i..]) == [];
        return sent, true;
      }
      var response := Dispatch(message[CommandKey]);
      assert messages[i..][1..] == messages[i + 1..];
      sent := sent + [response];
      i := i + 1;
    }
    assert messages[i..] == [];
    closed := false;
  }
}
