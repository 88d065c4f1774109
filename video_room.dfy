/**
 * The video debate room: its countdown, the session row it closes or
 * reports, and the chat list it keeps in sync with the session's messages.
 * Store calls are not performed here: whether a call succeeded, who is
 * signed in and what a query returned are inputs of the methods.
 */
module VideoRoom {
  import opened Optional
  import opened Text
  import opened Timer

  type UserId = string

  /** The `status` column of a debate session. */
  datatype SessionStatus = Active | Ended | Reported

  /** The row of `debate_sessions` for this room's session, as far as the
      room reads or writes it; `user_a` and `user_b` are nullable. */
  datatype SessionRow = SessionRow(
    status: SessionStatus,
    endedAt: Option<int>,
    durationSeconds: Option<int>,
    userA: Option<UserId>,
    userB: Option<UserId>)

  /** A row of `messages` as the room renders it. */
  datatype ChatRow = ChatRow(id: string, senderId: UserId, messageText: string, createdAt: string)

  /** What the room inserts into `messages` (the session id is the room's). */
  datatype ChatInsert = ChatInsert(senderId: UserId, messageText: string)

  /** What the room inserts into `reports`. */
  datatype ReportInsert = ReportInsert(reporterId: UserId, reportedUserId: Option<UserId>, reason: string)

  datatype SendOutcome = BlankInput | SignedOut | InsertFailed | Sent

  /** `Submitted` carries the reason handed to `onReport`. */
  datatype ReportOutcome = BlankReason | ReporterSignedOut | Submitted(forwarded: string)

  /** `duration_seconds` as `handleEndDebate` computes it from the
      `timeLeft` its closure sees: the seconds that have run off the clock,
      which lie between 0 and the duration when that `timeLeft` does. */
  function ElapsedSeconds(duration: int, timeLeft: int): (r: int)
    ensures r + timeLeft == duration
    ensures 0 <= timeLeft <= duration ==> 0 <= r <= duration
  {
    duration - timeLeft
  }

  /** With the time left as the countdown really stands, the elapsed
      seconds are the seconds that have passed since the room mounted,
      until the clock stops. */
  lemma ElapsedCountsSeconds(duration: int, k: nat)
    requires duration >= 1 && k <= duration
    ensures ElapsedSeconds(duration, FireN(Start(duration), k).timeLeft) == k
  {
    CountdownSchedule(duration, k);
  }

  /** The interval callback is created on the first render, so the
      `handleEndDebate` it calls sees the first render's `timeLeft`, which
      is `duration`: a debate that runs out records 0 seconds although
      `duration` seconds have passed. */
  lemma TimerPathRecordsZero(duration: int)
    requires duration >= 1
    ensures FireN(Start(duration), duration) == Clock(0, false, 1)
    ensures ElapsedSeconds(duration, Start(duration).timeLeft) == 0 != duration
  {
    CountdownSchedule(duration, duration);
  }

  /** What a debate that runs out should record: the `timeLeft` at expiry
      (0), so `duration_seconds` is the full duration, the seconds that
      have actually passed. */
  function ExpiryDuration(duration: int): (r: int)
    requires duration >= 1
    ensures r == duration
  {
    CountdownSchedule(duration, duration);
    ElapsedSeconds(duration, FireN(Start(duration), duration).timeLeft)
  }

  /** The user reported from a session: the other participant when the
      reporter is `user_a`, else `user_a`, even when the reporter is neither
      participant or `user_a` is missing. */
  function ReportedUser(reporter: UserId, userA: Option<UserId>, userB: Option<UserId>): (r: Option<UserId>)
    ensures r == userA || r == userB
    ensures userA == Some(reporter) && userB != Some(reporter) ==> r != Some(reporter)
    ensures userA != Some(reporter) ==> r == userA
  {
    if userA == Some(reporter) then userB else userA
  }

  /** A reporter who is one of two distinct participants always reports
      the other one. */
  lemma ReportsTheOtherParticipant(reporter: UserId, a: UserId, b: UserId)
    requires a != b && (reporter == a || reporter == b)
    ensures ReportedUser(reporter, Some(a), Some(b)) == Some(if reporter == a then b else a)
    ensures ReportedUser(reporter, Some(a), Some(b)) != Some(reporter)
  {
  }

  class Room {
    const duration: int
    /** The countdown shown in the header. */
    var timeLeft: int
    /** Whether the one-second interval is still scheduled. */
    var running: bool
    /** The chat list rendered under the videos. */
    var messages: seq<ChatRow>
    var inputValue: string
    var reportReason: string
    var showReportDialog: bool
    /** This session's row in `debate_sessions`. */
    var session: SessionRow
    /** The rows this room inserted into `messages` and `reports`. */
    var sentRows: seq<ChatInsert>
    var reportRows: seq<ReportInsert>
    /** How many times the interval has run the end handler. */
    ghost var timerEnds: nat

    /** The countdown as `Timer` describes it. */
    ghost function ClockView(): Clock
      reads this
    {
      Clock(timeLeft, running, timerEnds)
    }

    /** The countdown is in a state `Timer.ClockOk` allows. */
    ghost predicate Valid()
      reads this
    {
      ClockOk(ClockView(), duration)
    }

    /** Mounting the room for an active session. */
    constructor (duration: int, userA: Option<UserId>, userB: Option<UserId>)
      ensures Valid()
      ensures this.duration == duration && timeLeft == duration && running
      ensures messages == [] && inputValue == [] && reportReason == [] && !showReportDialog
      ensures session == SessionRow(Active, None, None, userA, userB)
      ensures sentRows == [] && reportRows == []
      ensures ClockView() == Start(duration)
    {
      this.duration := duration;
      timeLeft := duration;
      running := true;
      messages := [];
      inputValue := [];
      reportReason := [];
      showReportDialog := false;
      session := SessionRow(Active, None, None, userA, userB);
      sentRows := [];
      reportRows := [];
      timerEnds := 0;
    }

    /** `handleEndDebate` as closed over a render whose `timeLeft` was
        `seenTimeLeft`: when the update succeeds the session is ended at
        `now` with the elapsed seconds recorded, and `onEnd` runs; a failed
        update changes nothing. The status is overwritten whatever it was. */
    method EndSession(seenTimeLeft: int, now: int, updateOk: bool) returns (onEndCalled: bool)
      modifies this`session
      ensures onEndCalled == updateOk
      ensures updateOk ==> session == old(session).(status := Ended, endedAt := Some(now),
                                                   durationSeconds := Some(ElapsedSeconds(duration, seenTimeLeft)))
      ensures !updateOk ==> session == old(session)
    {
      if updateOk {
        session := session.(status := Ended, endedAt := Some(now),
                            durationSeconds := Some(ElapsedSeconds(duration, seenTimeLeft)));
      }
      onEndCalled := updateOk;
    }

    /** One firing of the interval. The clock moves as `Fire` says; on the
        expiring tick the interval is cleared and the first render's
        `handleEndDebate` runs, so a successful update records 0 seconds. */
    method Tick(now: int, updateOk: bool) returns (onEndCalled: bool)
      requires Valid() && running
      modifies this`timeLeft, this`running, this`timerEnds, this`session
      ensures Valid()
      ensures ClockView() == Fire(old(ClockView()))
      ensures old(timeLeft) > 1 ==> session == old(session) && !onEndCalled
      ensures old(timeLeft) <= 1 ==> onEndCalled == updateOk
      ensures old(timeLeft) <= 1 && updateOk ==>
        session == old(session).(status := Ended, endedAt := Some(now), durationSeconds := Some(0))
      ensures old(timeLeft) <= 1 && !updateOk ==> session == old(session)
    {
      var t := Countdown(timeLeft);
      onEndCalled := false;
      if t.expired {
        running := false;
        timerEnds := timerEnds + 1;
        onEndCalled := EndSession(duration, now, updateOk);
      }
      timeLeft := t.next;
    }

    /** "End Debate" confirmed in the dialog: the current render's
        `handleEndDebate`, which sees the current `timeLeft`. The interval
        is not cleared here. */
    method EndByDialog(now: int, updateOk: bool) returns (onEndCalled: bool)
      requires Valid()
      modifies this`session
      ensures onEndCalled == updateOk
      ensures updateOk ==> session == old(session).(status := Ended, endedAt := Some(now),
                                                   durationSeconds := Some(ElapsedSeconds(duration, timeLeft)))
      ensures updateOk && duration >= 0 ==> 0 <= session.durationSeconds.value <= duration
      ensures !updateOk ==> session == old(session)
    {
      onEndCalled := EndSession(timeLeft, now, updateOk);
    }

    /** Typing into the chat input. */
    method TypeMessage(s: string)
      modifies this`inputValue
      ensures inputValue == s
    {
      inputValue := s;
    }

    /** Typing into the report dialog. */
    method TypeReason(s: string)
      modifies this`reportReason
      ensures reportReason == s
    {
      reportReason := s;
    }

    /** `handleSendMessage`: a blank input, or no signed-in user, sends
        nothing; otherwise the trimmed input is inserted as the user's
        message, and the input is cleared only when the insert succeeded.
        The chat list itself grows only when the insert comes back through
        the subscription (`Receive`). */
    method Send(user: Option<UserId>, insertOk: bool) returns (outcome: SendOutcome)
      modifies this`inputValue, this`sentRows
      ensures outcome == BlankInput <==> AllWhitespace(old(inputValue))
      ensures outcome == Sent ==> user.Some? && sentRows == old(sentRows) + [ChatInsert(user.value, Trim(old(inputValue)))]
      ensures outcome == Sent ==> Trim(old(inputValue)) != [] && inputValue == []
      ensures outcome != Sent ==> sentRows == old(sentRows) && inputValue == old(inputValue)
      ensures outcome == Sent <==> !AllWhitespace(old(inputValue)) && user.Some? && insertOk
    {
      if IsBlank(inputValue) {
        return BlankInput;
      }
      if user.None? {
        return SignedOut;
      }
      if !insertOk {
        return InsertFailed;
      }
      sentRows := sentRows + [ChatInsert(user.value, Trim(inputValue))];
      inputValue := [];
      outcome := Sent;
    }

    /** The initial fetch of the session's messages: when it returns rows
        they replace the list. */
    method LoadHistory(data: Option<seq<ChatRow>>)
      modifies this`messages
      ensures messages == if data.Some? then data.value else old(messages)
    {
      if data.Some? {
        messages := data.value;
      }
    }

    /** An insert notification from the session's channel: appended at the
        end, everything before it untouched. */
    method Receive(row: ChatRow)
      modifies this`messages
      ensures |messages| == |old(messages)| + 1
      ensures messages[..|old(messages)|] == old(messages) && messages[|messages| - 1] == row
    {
      messages := messages + [row];
    }

    /** `handleReport`: a blank reason is refused with nothing changed;
        without a signed-in user nothing happens either. Otherwise, when the
        session row was found, a report against the other participant is
        inserted with the trimmed reason and the session is marked
        reported; in every such case the dialog closes and `onReport` gets
        the reason as typed. */
    method Report(user: Option<UserId>, sessionFound: bool) returns (outcome: ReportOutcome)
      modifies this`reportRows, this`session, this`showReportDialog
      ensures outcome == BlankReason <==> AllWhitespace(old(reportReason))
      ensures outcome == ReporterSignedOut <==> !AllWhitespace(old(reportReason)) && user.None?
      ensures !outcome.Submitted? ==>
        reportRows == old(reportRows) && session == old(session) && showReportDialog == old(showReportDialog)
      ensures outcome.Submitted? ==> outcome.forwarded == old(reportReason) && !showReportDialog
      ensures outcome.Submitted? && sessionFound ==>
        && reportRows == old(reportRows) + [ReportInsert(user.value,
             ReportedUser(user.value, old(session).userA, old(session).userB), Trim(old(reportReason)))]
        && session == old(session).(status := Reported)
      ensures outcome.Submitted? && !sessionFound ==> reportRows == old(reportRows) && session == old(session)
    {
      if IsBlank(reportReason) {
        return BlankReason;
      }
      if user.None? {
        return ReporterSignedOut;
      }
      if sessionFound {
        var reported := ReportedUser(user.value, session.userA, session.userB);
        reportRows := reportRows + [ReportInsert(user.value, reported, Trim(reportReason))];
        session := session.(status := Reported);
      }
      showReportDialog := false;
      outcome := Submitted(reportReason);
    }
  }
}
