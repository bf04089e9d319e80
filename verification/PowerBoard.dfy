/**
 A change of the adapter settings. The front panel keeps every block it receives and
 forwards it to the power board, so a read shows the new block even if the power board
 missed it; only the notified result tells whether it arrived.
 */
module PowerBoard {
  import opened Prelude
  import opened AdapterLimits
  import Encryption

  const WRITE_ATTEMPTS: nat := 2
  const COMMAND_CONFIRMED: byte := 0
  const RESULT_SIZE: nat := 4

  /**
   What becomes of one command: a result is notified while it waits (whose, is the subject of
   `CommandResults`), or none comes in time, or the link fails. Without a result the command
   may still have reached the front panel.
   */
  datatype Reply = Result(frame: Bytes) | Silence(arrived: bool) | LinkError(arrived: bool) {
    predicate Arrives() { Result? || arrived }
  }

  /** `decode_command_result`; `None` is a `PacketParseError`. */
  function DecodeResult(frame: Bytes): Option<byte> {
    if |frame| < RESULT_SIZE || frame[0] != Encryption.FRAME_MAGIC then None else Some(frame[3])
  }

  predicate Confirms(reply: Reply) {
    reply.Result? && DecodeResult(reply.frame) == Some(COMMAND_CONFIRMED)
  }

  /** The power board did not answer: the only outcome that is tried again. */
  predicate Denies(reply: Reply) {
    reply.Result? && DecodeResult(reply.frame).Some? && !Confirms(reply)
  }

  /** The frame of a result: the magic, two bytes, and the status in the fourth. */
  predicate IsResult(reply: Reply) {
    reply.Result? && |reply.frame| >= 4 && reply.frame[0] == 0x51
  }

  predicate StatusIs(reply: Reply, status: byte) {
    IsResult(reply) && reply.frame[3] == status
  }

  datatype Outcome = Confirmed | NotConfirmed | Unavailable | OtherError

  /** The number of commands a write sends. */
  function Sent(replies: seq<Reply>): (n: nat)
    requires |replies| >= WRITE_ATTEMPTS
    ensures 1 <= n <= 2
  {
    if Denies(replies[0]) then 2 else 1
  }

  /** The adapter rating shown to the user in mV and mA, and the power-good threshold. */
  datatype Rating = Rating(millivolts: int, milliamperes: int, powerGood: int)

  function Reading(block: AdapterSettings): Option<Rating> {
    if block.adapterVoltage < MIN_ADAPTER_MV || block.adapterCurrent < MIN_ADAPTER_MA then None
    else Some(Rating(block.adapterVoltage, block.adapterCurrent, block.powerGoodVoltage))
  }

  class AdapterControl {
    // the block the front panel reports on reads
    var frontPanel: AdapterSettings
    var shown: Option<Rating>
    var commands: nat

    constructor (frontPanel: AdapterSettings)
      ensures this.frontPanel == frontPanel && shown == None && commands == 0
    {
      this.frontPanel := frontPanel;
      shown, commands := None, 0;
    }

    /** The rating is unknown exactly if one of its values is missing; otherwise all of it is shown as reported. */
    method ReadAdapter()
      modifies this`shown
      ensures shown.None? <==> frontPanel.adapterVoltage < 5000 || frontPanel.adapterCurrent < 1000
      ensures shown.Some? ==>
                && shown.value.millivolts == frontPanel.adapterVoltage
                && shown.value.milliamperes == frontPanel.adapterCurrent
                && shown.value.powerGood == frontPanel.powerGoodVoltage
    {
      var settings := frontPanel;
      if settings.adapterVoltage < MIN_ADAPTER_MV || settings.adapterCurrent < MIN_ADAPTER_MA {
        shown := None;
      } else {
        shown := Some(Rating(settings.adapterVoltage, settings.adapterCurrent, settings.powerGoodVoltage));
      }
    }

    /**
     Sends the block at most twice. It succeeds exactly if one of the commands it sent was
     confirmed, and the front panel has the block if the first one arrived.
     */
    method WriteToPowerBoard(block: AdapterSettings, replies: seq<Reply>) returns (outcome: Outcome)
      requires |replies| >= WRITE_ATTEMPTS
      modifies this`frontPanel, this`commands
      ensures commands == old(commands) + Sent(replies)
      ensures outcome == Confirmed <==> exists i :: 0 <= i < Sent(replies) && Confirms(replies[i])
      ensures outcome == NotConfirmed <==> replies[Sent(replies) - 1].Silence? || Denies(replies[Sent(replies) - 1])
      ensures outcome != Unavailable
      ensures StatusIs(replies[0], 0) ==> outcome == Confirmed && commands == old(commands) + 1
      ensures replies[0].Result? && !IsResult(replies[0]) ==> outcome == OtherError && commands == old(commands) + 1
      ensures IsResult(replies[0]) && !StatusIs(replies[0], 0) ==>
                && commands == old(commands) + 2
                && (outcome == Confirmed <==> StatusIs(replies[1], 0))
                && (outcome == NotConfirmed <==>
                    replies[1].Silence? || (IsResult(replies[1]) && !StatusIs(replies[1], 0)))
      ensures frontPanel == if replies[0].Arrives() then block else old(frontPanel)
    {
      for attempt := 0 to WRITE_ATTEMPTS
        invariant commands == old(commands) + attempt
        invariant forall i :: 0 <= i < attempt ==> Denies(replies[i])
        invariant frontPanel == if attempt > 0 then block else old(frontPanel)
      {
        var reply := replies[attempt];
        commands := commands + 1;
        if reply.Arrives() {
          frontPanel := block;
        }
        match reply
        case Silence(_) => return NotConfirmed;
        case LinkError(_) => return OtherError;
        case Result(frame) =>
          var status := DecodeResult(frame);
          if status.None? {
            return OtherError;
          }
          if status.value == COMMAND_CONFIRMED {
            assert Confirms(replies[attempt]);
            return Confirmed;
          }
      }
      return NotConfirmed;
    }

    /**
     `_write_adapter`. `firstRead` and `lastRead` tell whether its reads of the block
     succeed. Without known values it sends nothing. A confirmed write whose block could be
     read shows the new rating; any other leaves the rating shown that was read before it,
     although the front panel may report the new block from then on.
     */
    method WriteAdapter(change: Change, firstRead: bool, replies: seq<Reply>, lastRead: bool) returns (outcome: Outcome)
      requires |replies| >= WRITE_ATTEMPTS
      modifies this
      ensures !firstRead ==> outcome == OtherError && shown == old(shown)
      ensures firstRead ==> (outcome == Unavailable <==> Reading(old(frontPanel)).None?)
      ensures outcome == Unavailable ==> shown == None
      ensures !firstRead || outcome == Unavailable ==> commands == old(commands) && frontPanel == old(frontPanel)
      ensures firstRead && outcome != Unavailable ==>
                var was := Reading(old(frontPanel)).value;
                var block := Written(change, was.millivolts, was.milliamperes);
                var confirmed := exists i :: 0 <= i < Sent(replies) && Confirms(replies[i]);
                && commands == old(commands) + Sent(replies) <= old(commands) + 2
                && (outcome == Confirmed <==> confirmed && lastRead)
                && (outcome == NotConfirmed <==>
                    (replies[Sent(replies) - 1].Silence? || Denies(replies[Sent(replies) - 1])))
                && (confirmed && lastRead ==> shown == Reading(block))
                && (!confirmed || !lastRead ==> shown == Some(was))
                && frontPanel == if replies[0].Arrives() then block else old(frontPanel)
    {
      if !firstRead {
        return OtherError;
      }
      ReadAdapter();
      if shown.None? {
        return Unavailable;
      }
      var block := Written(change, shown.value.millivolts, shown.value.milliamperes);
      outcome := WriteToPowerBoard(block, replies);
      if outcome == Confirmed {
        if !lastRead {
          return OtherError;
        }
        ReadAdapter();
      }
    }
  }

  /** A confirmed change shows exactly the requested rating as clamped, in thousandths, and the other one as it was. */
  lemma ConfirmedShowsRating(change: Change, was: Rating)
    requires Accepted(was.millivolts, was.milliamperes)
    ensures var shown := Reading(Written(change, was.millivolts, was.milliamperes));
            && shown.Some?
            && (change.Voltage? ==>
                  && shown.value.milliamperes == was.milliamperes
                  && 5000 <= shown.value.millivolts <= 20000
                  && (5.0 <= change.volts <= 20.0 ==> shown.value.millivolts == Rounded(change.volts * 1000.0)))
            && (change.Current? ==>
                  && shown.value.millivolts == was.millivolts
                  && 2000 <= shown.value.milliamperes <= 10000
                  && (2.0 <= change.amperes <= 10.0 ==> shown.value.milliamperes == Rounded(change.amperes * 1000.0)))
            && 0 <= shown.value.powerGood < shown.value.millivolts
  {
    WrittenIsConsistent(change, was.millivolts, was.milliamperes);
  }
}
