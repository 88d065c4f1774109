/**
 * The text-only debate room: a countdown that calls `onEnd` when it runs
 * out, a local chat list that the user's messages and the simulated
 * opponent's replies are appended to, and a report button with a fixed
 * reason.
 */
module ChatRoom {
  import opened Text
  import opened Timer

  datatype Sender = Me | Them

  /** A chat message; `id` is the clock reading in milliseconds as a
      string, `timestamp` the time it was created. */
  datatype Message = Message(id: string, sender: Sender, text: string, timestamp: int)

  /** The canned replies of the simulated opponent. */
  const Replies: seq<string> := [
    "That's an interesting point, but have you considered...",
    "I respectfully disagree because...",
    "Can you elaborate on that?",
    "That's a valid perspective. However..."
  ]

  /** The reason every report from this room carries. */
  const FixedReportReason: string := "inappropriate_behavior"

  class Room {
    const duration: int
    var timeLeft: int
    /** Whether the one-second interval is still scheduled. */
    var running: bool
    /** How many times the interval has called `onEnd`. */
    ghost var timerEnds: nat
    var messages: seq<Message>
    var inputValue: string
    var showReportDialog: bool
    /** Simulated replies scheduled by a send and not yet delivered. */
    var pendingReplies: nat

    ghost function ClockView(): Clock
      reads this
    {
      Clock(timeLeft, running, timerEnds)
    }

    /** The countdown is in a state `Timer.ClockOk` allows. */
    ghost predicate Valid()
      reads this
    {
      ClockOk(ClockView(), duration)
    }

    constructor (duration: int)
      ensures Valid() && this.duration == duration && ClockView() == Start(duration)
      ensures messages == [] && inputValue == [] && !showReportDialog && pendingReplies == 0
    {
      this.duration := duration;
      timeLeft := duration;
      running := true;
      timerEnds := 0;
      messages := [];
      inputValue := [];
      showReportDialog := false;
      pendingReplies := 0;
    }

    /** One firing of the interval: the clock moves as `Fire` says, and on
        the expiring tick the interval is cleared and `onEnd` is called. */
    method Tick() returns (onEndCalled: bool)
      requires Valid() && running
      modifies this`timeLeft, this`running, this`timerEnds
      ensures Valid()
      ensures ClockView() == Fire(old(ClockView()))
      ensures onEndCalled <==> old(timeLeft) <= 1
    {
      var t := Countdown(timeLeft);
      onEndCalled := t.expired;
      if t.expired {
        running := false;
        timerEnds := timerEnds + 1;
      }
      timeLeft := t.next;
    }

    /** Typing into the message input. */
    method TypeMessage(s: string)
      modifies this`inputValue
      ensures inputValue == s
    {
      inputValue := s;
    }

    /** `handleSendMessage` at clock reading `now`: a blank input is
        ignored; otherwise one message from "me" with the input exactly as
        typed (not trimmed) is appended, the input is cleared and one
        simulated reply is scheduled. */
    method Send(now: int) returns (sent: bool)
      modifies this`messages, this`inputValue, this`pendingReplies
      ensures sent <==> !AllWhitespace(old(inputValue))
      ensures sent ==>
        && messages == old(messages) + [Message(IntToString(now), Me, old(inputValue), now)]
        && inputValue == [] && pendingReplies == old(pendingReplies) + 1
      ensures !sent ==>
        messages == old(messages) && inputValue == old(inputValue) && pendingReplies == old(pendingReplies)
    {
      if IsBlank(inputValue) {
        return false;
      }
      messages := messages + [Message(IntToString(now), Me, inputValue, now)];
      inputValue := [];
      pendingReplies := pendingReplies + 1;
      sent := true;
    }

    /** A scheduled reply arriving at clock reading `now`; `pick` is
        `Math.floor(Math.random() * 4)`. One message from "them" with that
        canned text is appended and the list before it is untouched. */
    method DeliverReply(now: int, pick: nat)
      requires pendingReplies > 0 && pick < |Replies|
      modifies this`messages, this`pendingReplies
      ensures messages == old(messages) + [Message(IntToString(now + 1), Them, Replies[pick], now)]
      ensures pendingReplies == old(pendingReplies) - 1
    {
      messages := messages + [Message(IntToString(now + 1), Them, Replies[pick], now)];
      pendingReplies := pendingReplies - 1;
    }

    /** `handleReport`: the dialog closes and `onReport` is called with the
        fixed reason, whatever happened in the room. */
    method Report() returns (reason: string)
      modifies this`showReportDialog
      ensures reason == FixedReportReason && !showReportDialog
    {
      reason := FixedReportReason;
      showReportDialog := false;
    }
  }
}
