/**
 * The session logic of the chat server (backend/app.py): a process-wide map
 * from session id to a record of symptoms, patient information and stage,
 * updated on every chat turn and cleared by reset.
 *
 * The four-agent crew is an oracle `kickoff` from the session's symptoms
 * and patient information to either the text of its final output or the
 * message of the exception it raised. Requests arrive already decoded.
 */
module App {
  import opened Wrappers
  import opened Text

  /** A JSON value, as the request's `patient_info` object holds them. */
  datatype Json =
    | JNull
    | JBool(b: bool)
    | JNumber(n: real)
    | JString(s: string)
    | JArray(items: seq<Json>)
    | JObject(fields: map<string, Json>)

  type PatientInfo = map<string, Json>

  datatype Stage = Initial | Diagnosis

  /** The stage as the source spells it in the record and in the response. */
  function StageName(stage: Stage): (name: string)
    ensures name == "initial" <==> stage == Initial
    ensures name == "diagnosis" <==> stage == Diagnosis
  {
    match stage
    case Initial => "initial"
    case Diagnosis => "diagnosis"
  }

  datatype Session = Session(symptoms: seq<string>, patientInfo: PatientInfo, stage: Stage)

  /** The fields of a `/chat` body: each may be absent. */
  datatype ChatRequest = ChatRequest(message: Option<string>, sessionId: Option<string>,
                                     patientInfo: Option<PatientInfo>)

  datatype ResetRequest = ResetRequest(sessionId: Option<string>)

  datatype CrewResult = Finished(output: string) | CrewRaised(message: string)

  /** A `/chat` answer: the success body (status 200) or an error body with its status. */
  datatype ChatResponse =
    | Reply(reply: string, sessionId: string, stage: string)
    | ErrorResponse(status: nat, error: string)

  datatype ResetResponse = ResetResponse(message: string, sessionId: string)

  /** A line of the interaction log, without its timestamp and latency. */
  datatype LogEntry = LogEntry(sessionId: string, user: string, bot: string, symptoms: seq<string>, stage: string)

  const AdditionalInfoKey: string := "additional_info"

  /** `data.get("session_id", "default")`. */
  function SessionKey(sessionId: Option<string>): (key: string)
    ensures sessionId.None? ==> key == "default"
    ensures sessionId.Some? ==> key == sessionId.value
  {
    match sessionId
    case None => "default"
    case Some(id) => id
  }

  /** `data.get("message", "").strip()`. */
  function MessageText(req: ChatRequest): (text: string)
    ensures req.message.None? ==> text == []
    ensures req.message.Some? ==> text == Strip(req.message.value)
    ensures Stripped(text)
  {
    match req.message
    case None => ""
    case Some(m) => Strip(m)
  }

  /** `data.get("patient_info", {})`. */
  function RequestInfo(req: ChatRequest): (info: PatientInfo)
    ensures req.patientInfo.None? ==> info == map[]
    ensures req.patientInfo.Some? ==> info == req.patientInfo.value
  {
    match req.patientInfo
    case None => map[]
    case Some(info) => info
  }

  /** `dict.update`: a shallow merge in which every key of `update` takes the update's value. */
  function Merge(info: PatientInfo, update: PatientInfo): (r: PatientInfo)
    ensures r.Keys == info.Keys + update.Keys
    ensures forall k :: k in update ==> r[k] == update[k]
    ensures forall k :: k in info && k !in update ==> r[k] == info[k]
  {
    info + update
  }

  /** The record of a session after a turn with a non-empty message: created if new, parsed, then merged with the request's patient information. */
  function Advance(existing: Option<Session>, text: string, update: PatientInfo): (s: Session)
    ensures s.stage == Diagnosis
  {
    var current := if existing.Some? then existing.value else Session([], update, Initial);
    var parsed := ParseMessage(current, text);
    parsed.(patientInfo := Merge(parsed.patientInfo, update))
  }

  /** The first message is a symptom list, every later one is additional information. */
  function ParseMessage(current: Session, text: string): (s: Session)
    ensures s.stage == Diagnosis
  {
    match current.stage
    case Initial => current.(symptoms := CommaItems(text), stage := Diagnosis)
    case Diagnosis => current.(patientInfo := current.patientInfo[AdditionalInfoKey := JString(text)])
  }

  /**
   * The first turn of a new session records the message's comma-separated,
   * stripped, non-empty pieces (not lower-cased) and the request's patient
   * information as it came.
   */
  lemma FirstTurnRecordsSymptoms(text: string, update: PatientInfo)
    ensures Advance(None, text, update) == Session(CommaItems(text), update, Diagnosis)
  {
  }

  /** The two-symptom example: "headache, fever" opens a session with both symptoms. */
  lemma HeadacheFeverExample(update: PatientInfo)
    ensures Advance(None, "headache, fever", update) == Session(["headache", "fever"], update, Diagnosis)
  {
    HeadacheFeverItems();
  }

  lemma HeadacheFeverItems()
    ensures CommaItems("headache, fever") == ["headache", "fever"]
  {
    HeadacheFeverSplit();
    HeadacheFeverStripped();
  }

  lemma HeadacheFeverSplit()
    ensures Split("headache, fever", ',') == ["headache", " fever"]
  {
    var pieces := ["headache", " fever"];
    assert Join(pieces, ",") == "headache, fever" by {
      assert Join(pieces[1..], ",") == " fever";
    }
    SplitJoin(pieces, ',');
  }

  lemma HeadacheFeverStripped()
    ensures StrippedItems(["headache", " fever"]) == ["headache", "fever"]
  {
    var pieces := ["headache", " fever"];
    StripOfStripped("headache");
    assert Strip(" fever") == "fever" by {
      assert " fever"[1..] == "fever";
      StripOfStripped("fever");
    }
    assert pieces[1..] == [" fever"];
  }

  /** A session still in its initial stage is re-parsed the same way, keeping its other information. */
  lemma InitialTurnParses(record: Session, text: string, update: PatientInfo)
    requires record.stage == Initial
    ensures var s := Advance(Some(record), text, update);
      s.symptoms == CommaItems(text) && s.patientInfo == Merge(record.patientInfo, update)
  {
  }

  /**
   * A follow-up turn keeps the symptoms, stores the message under
   * "additional_info" unless the request's own patient information carries
   * that key (the merge runs last), and otherwise changes only the keys the
   * request supplies.
   */
  lemma FollowUpTurn(record: Session, text: string, update: PatientInfo)
    requires record.stage == Diagnosis
    ensures var s := Advance(Some(record), text, update);
      && s.symptoms == record.symptoms
      && AdditionalInfoKey in s.patientInfo
      && s.patientInfo[AdditionalInfoKey]
         == (if AdditionalInfoKey in update then update[AdditionalInfoKey] else JString(text))
      && (forall k :: k != AdditionalInfoKey ==>
            (k in s.patientInfo <==> k in record.patientInfo || k in update))
      && (forall k :: k != AdditionalInfoKey && k in update ==> s.patientInfo[k] == update[k])
      && (forall k :: k != AdditionalInfoKey && k in record.patientInfo && k !in update
            ==> s.patientInfo[k] == record.patientInfo[k])
  {
  }

  /** What a chat turn leaves behind: the new session map, the response, and the log line if one is written. */
  datatype Turn = Turn(sessions: map<string, Session>, response: ChatResponse, logged: Option<LogEntry>)

  /** The effect of one `/chat` request on the session map. */
  function ChatStep(sessions: map<string, Session>, req: ChatRequest,
                    kickoff: (seq<string>, PatientInfo) -> CrewResult): (t: Turn)
    ensures MessageText(req) == [] <==> t.response == ErrorResponse(400, "Empty message")
    ensures MessageText(req) == [] ==> t.sessions == sessions && t.logged == None
    ensures MessageText(req) != [] && t.response.ErrorResponse? ==> t.response.status == 500
    ensures MessageText(req) != [] ==>
      var key := SessionKey(req.sessionId);
      key in t.sessions && t.sessions[key].stage == Diagnosis
    ensures forall k :: k != SessionKey(req.sessionId) ==>
      (k in t.sessions <==> k in sessions) && (k in sessions ==> t.sessions[k] == sessions[k])
    ensures t.response.Reply? ==>
      t.response.stage == "diagnosis" && t.response.sessionId == SessionKey(req.sessionId)
    ensures t.logged.Some? <==> t.response.Reply?
    ensures MessageText(req) != [] ==>
      var key := SessionKey(req.sessionId);
      t.sessions == sessions[key := Advance(if key in sessions then Some(sessions[key]) else None,
                                            MessageText(req), RequestInfo(req))]
    ensures t.response.Reply? ==>
      var s := t.sessions[t.response.sessionId];
      kickoff(s.symptoms, s.patientInfo) == Finished(t.response.reply)
      && t.logged == Some(LogEntry(t.response.sessionId, MessageText(req), t.response.reply, s.symptoms, "diagnosis"))
    ensures t.response.ErrorResponse? && t.response.status == 500 ==>
      var s := t.sessions[SessionKey(req.sessionId)];
      kickoff(s.symptoms, s.patientInfo) == CrewRaised(t.response.error)
  {
    var text := MessageText(req);
    var key := SessionKey(req.sessionId);
    if text == [] then Turn(sessions, ErrorResponse(400, "Empty message"), None)
    else
      var existing := if key in sessions then Some(sessions[key]) else None;
      var s := Advance(existing, text, RequestInfo(req));
      var updated := sessions[key := s];
      match kickoff(s.symptoms, s.patientInfo)
      case CrewRaised(message) => Turn(updated, ErrorResponse(500, message), None)
      case Finished(output) =>
        Turn(updated, Reply(output, key, StageName(s.stage)),
             Some(LogEntry(key, text, output, s.symptoms, StageName(s.stage))))
  }

  /**
   * When the crew raises, the turn answers 500 with the exception's message
   * and the session changes made before the kickoff are kept.
   */
  lemma KickoffFailureKeepsChanges(sessions: map<string, Session>, req: ChatRequest,
                                   kickoff: (seq<string>, PatientInfo) -> CrewResult)
    requires MessageText(req) != []
    ensures var key := SessionKey(req.sessionId);
      var s := Advance(if key in sessions then Some(sessions[key]) else None, MessageText(req), RequestInfo(req));
      var t := ChatStep(sessions, req, kickoff);
      kickoff(s.symptoms, s.patientInfo).CrewRaised? ==>
        t.response == ErrorResponse(500, kickoff(s.symptoms, s.patientInfo).message)
        && t.sessions == sessions[key := s] && t.logged == None
  {
  }

  /** Every stored session is past its initial stage, and a chat turn keeps it so. */
  ghost predicate AllDiagnosis(sessions: map<string, Session>) {
    forall k :: k in sessions ==> sessions[k].stage == Diagnosis
  }

  lemma ChatStepKeepsAllDiagnosis(sessions: map<string, Session>, req: ChatRequest,
                                  kickoff: (seq<string>, PatientInfo) -> CrewResult)
    requires AllDiagnosis(sessions)
    ensures AllDiagnosis(ChatStep(sessions, req, kickoff).sessions)
  {
    var t := ChatStep(sessions, req, kickoff);
    forall k | k in t.sessions ensures t.sessions[k].stage == Diagnosis {
      if k != SessionKey(req.sessionId) {
        assert k in sessions;
      }
    }
  }

  /**
   * Two turns on a fresh session: the first message's symptoms are recorded
   * and the second message, whatever it says, leaves them unchanged.
   */
  lemma {:induction false} SecondTurnKeepsSymptoms(sessions: map<string, Session>, first: ChatRequest, second: ChatRequest,
                                kickoff: (seq<string>, PatientInfo) -> CrewResult)
    requires SessionKey(first.sessionId) !in sessions
    requires MessageText(first) != [] && MessageText(second) != []
    requires second.sessionId == first.sessionId
    ensures var key := SessionKey(first.sessionId);
      var t1 := ChatStep(sessions, first, kickoff);
      var t2 := ChatStep(t1.sessions, second, kickoff);
      t1.sessions[key].symptoms == CommaItems(MessageText(first))
      && t2.sessions[key].symptoms == CommaItems(MessageText(first))
  {
    var key := SessionKey(first.sessionId);
    var t1 := ChatStep(sessions, first, kickoff);
    FirstTurnRecordsSymptoms(MessageText(first), RequestInfo(first));
    var record := Advance(None, MessageText(first), RequestInfo(first));
    assert t1.sessions == sessions[key := record];
    var after := Advance(Some(record), MessageText(second), RequestInfo(second));
    FollowUpTurn(record, MessageText(second), RequestInfo(second));
    assert ChatStep(t1.sessions, second, kickoff).sessions == t1.sessions[key := after];
  }

  /** `/reset`: the session's record is removed if present, every other record is kept. */
  function ResetStep(sessions: map<string, Session>, key: string): (r: map<string, Session>)
    ensures key !in r
    ensures forall k :: k != key ==> (k in r <==> k in sessions) && (k in r ==> r[k] == sessions[k])
    ensures key !in sessions ==> r == sessions
  {
    if key in sessions then sessions - {key} else sessions
  }

  /** The `conversation_state` dictionary of the server, with the interaction log it appends to. */
  class ConversationState {
    var sessions: map<string, Session>
    var log: seq<LogEntry>

    /** Between requests no session is left in its initial stage. */
    ghost predicate Valid()
      reads this
    {
      AllDiagnosis(sessions)
    }

    constructor ()
      ensures Valid() && sessions == map[] && log == []
    {
      sessions := map[];
      log := [];
    }

    /** `chat`: one turn, with the crew as an oracle that may raise. */
    method Chat(req: ChatRequest, kickoff: (seq<string>, PatientInfo) -> CrewResult) returns (response: ChatResponse)
      requires Valid()
      modifies this
      ensures Valid()
      ensures var t := ChatStep(old(sessions), req, kickoff);
        sessions == t.sessions && response == t.response
        && log == old(log) + (if t.logged.Some? then [t.logged.value] else [])
    {
      var userText := MessageText(req);
      var sessionId := SessionKey(req.sessionId);
      var patientInfo := RequestInfo(req);
      if userText == [] {
        return ErrorResponse(400, "Empty message");
      }
      ghost var existing := if sessionId in sessions then Some(sessions[sessionId]) else None;
      if sessionId !in sessions {
        sessions := sessions[sessionId := Session([], patientInfo, Initial)];
      }
      var state := sessions[sessionId];
      if state.stage == Initial {
        var symptoms := CommaItems(userText);
        state := state.(symptoms := symptoms, stage := Diagnosis);
      } else {
        state := state.(patientInfo := state.patientInfo[AdditionalInfoKey := JString(userText)]);
      }
      state := state.(patientInfo := Merge(state.patientInfo, patientInfo));
      sessions := sessions[sessionId := state];
      assert state == Advance(existing, userText, patientInfo);
      assert sessions == old(sessions)[sessionId := state];
      var result := kickoff(state.symptoms, state.patientInfo);
      match result {
        case CrewRaised(message) =>
          response := ErrorResponse(500, message);
        case Finished(output) =>
          log := log + [LogEntry(sessionId, userText, output, state.symptoms, StageName(state.stage))];
          response := Reply(output, sessionId, StageName(state.stage));
      }
      forall k | k in sessions ensures sessions[k].stage == Diagnosis {
        if k != sessionId {
          assert k in old(sessions);
        }
      }
    }

    /** `reset`: drop one session's record; an unknown id is not an error. */
    method Reset(req: ResetRequest) returns (response: ResetResponse)
      requires Valid()
      modifies this
      ensures Valid()
      ensures sessions == ResetStep(old(sessions), SessionKey(req.sessionId)) && log == old(log)
      ensures response == ResetResponse("Session reset", SessionKey(req.sessionId))
    {
      var sessionId := SessionKey(req.sessionId);
      if sessionId in sessions {
        sessions := sessions - {sessionId};
      }
      response := ResetResponse("Session reset", sessionId);
    }
  }
}
