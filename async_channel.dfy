/** Poco::AsyncChannel: a channel that queues messages for a worker thread
    which passes them on to the real channel. With a queue size set, a
    message that finds the queue full is dropped and counted, and the next
    message that is accepted is preceded by one saying how many were
    dropped. */
module AsyncLogging {
  import opened Results
  import opened Text
  import opened Logging

  /** Thread::Priority. */
  datatype ThreadPriority = Lowest | Low | Normal | High | Highest

  /** AsyncChannel::setPriority's mapping: exactly the five lower-case
      names, with case; anything else is refused. */
  function ParsePriority(value: string): (r: Result<ThreadPriority>)
    ensures r.Err? ==> r.error == InvalidArgument
    ensures r.Ok? <==> value in ["lowest", "low", "normal", "high", "highest"]
  {
    if value == "lowest" then Ok(Lowest)
    else if value == "low" then Ok(Low)
    else if value == "normal" then Ok(Normal)
    else if value == "high" then Ok(High)
    else if value == "highest" then Ok(Highest)
    else Err(InvalidArgument)
  }

  /** The name setPriority takes for each priority. */
  function PriorityName(p: ThreadPriority): string {
    match p
    case Lowest => "lowest"
    case Low => "low"
    case Normal => "normal"
    case High => "high"
    case Highest => "highest"
  }

  lemma PriorityNameRoundTrip(p: ThreadPriority)
    ensures ParsePriority(PriorityName(p)) == Ok(p)
  {
  }

  /** The priority names are case-sensitive. */
  lemma ParsePriorityCaseSensitive()
    ensures ParsePriority("High").Err? && ParsePriority("NORMAL").Err?
  {
  }

  /** The "queueSize" property: "none" or "unlimited" in any case, or the
      empty string, mean no limit (0); anything else must be an unsigned
      number. */
  function ParseQueueSize(value: string): (r: Result<nat>)
    ensures r.Err? ==> r.error == Syntax
    ensures IEquals(value, "none") || IEquals(value, "unlimited") || value == [] ==> r == Ok(0)
    ensures !(IEquals(value, "none") || IEquals(value, "unlimited") || value == []) ==>
      (r.Ok? <==> ParseUnsigned(value).Some?) && (r.Ok? ==> ParseUnsigned(value) == Some(r.value))
  {
    if IEquals(value, "none") || IEquals(value, "unlimited") || value == [] then Ok(0)
    else
      match ParseUnsigned(value)
      case Some(n) => Ok(n)
      case None => Err(Syntax)
  }

  /** A number written out in decimal is taken as the queue size. */
  lemma ParseQueueSizeDecimal(n: nat)
    ensures ParseQueueSize(Decimal(n)) == Ok(n)
  {
    DecimalRoundTrip(n);
    var s := Decimal(n);
    assert IsDigit(s[0]) && LowerChar(s[0]) == s[0];
  }

  /** The summary logged before the first message accepted after drops:
      the accepted message with its text replaced. */
  function DroppedMessage(msg: Message, count: nat): (r: Message)
    ensures r.source == msg.source && r.priority == msg.priority
    ensures r.text == "Dropped " + Decimal(count) + " messages."
  {
    msg.(text := "Dropped " + Decimal(count) + " messages.")
  }

  class AsyncChannel {
    /** _pChannel: where the worker thread passes messages on to. */
    var channel: Option<ChannelId>
    var threadPriority: ThreadPriority
    /** Whether the worker thread has been started. */
    var running: bool
    var closed: bool
    /** The most messages queued before messages are dropped; 0: no limit. */
    var queueSize: nat
    /** Messages dropped since the last summary. */
    var dropCount: nat
    /** The messages waiting for the worker thread, oldest first. */
    var queue: seq<Message>

    constructor (channel: Option<ChannelId>, prio: ThreadPriority)
      ensures this.channel == channel && threadPriority == prio
      ensures !running && !closed && queueSize == 0 && dropCount == 0 && queue == []
    {
      this.channel := channel;
      threadPriority := prio;
      running := false;
      closed := false;
      queueSize := 0;
      dropCount := 0;
      queue := [];
    }

    /** AsyncChannel::open: start the worker thread unless it runs. */
    method Open()
      modifies this`running
      ensures running
    {
      if !running { running := true; }
    }

    /** AsyncChannel::close: mark the channel closed. Only the first call
        does anything. */
    method Close()
      modifies this`closed
      ensures closed
    {
      if !closed {
        closed := true;
      }
    }

    /** AsyncChannel::log: ignored once closed; dropped and counted when a
        queue size is set and the queue is full; otherwise queued, after a
        summary of the messages dropped since the last one. */
    method Log(msg: Message)
      modifies this`dropCount, this`queue, this`running
      ensures old(closed) ==> dropCount == old(dropCount) && queue == old(queue) && running == old(running)
      ensures !old(closed) && queueSize != 0 && |old(queue)| >= queueSize ==>
        dropCount == old(dropCount) + 1 && queue == old(queue) && running == old(running)
      ensures !old(closed) && (queueSize == 0 || |old(queue)| < queueSize) ==>
        && dropCount == 0 && running
        && queue == old(queue) + (if old(dropCount) != 0 then [DroppedMessage(msg, old(dropCount))] else []) + [msg]
      ensures queueSize != 0 && |queue| > |old(queue)| ==> |queue| <= queueSize + 1
    {
      if closed { return; }
      if queueSize != 0 && |queue| >= queueSize {
        dropCount := dropCount + 1;
        return;
      }
      if dropCount != 0 {
        queue := queue + [DroppedMessage(msg, dropCount)];
        dropCount := 0;
      }
      Open();
      queue := queue + [msg];
    }

    /** AsyncChannel::setPriority. */
    method SetPriority(value: string) returns (r: Status)
      modifies this`threadPriority
      ensures ParsePriority(value).Ok? ==> r == Done && threadPriority == ParsePriority(value).value
      ensures ParsePriority(value).Err? ==> r == Failed(InvalidArgument) && threadPriority == old(threadPriority)
    {
      match ParsePriority(value)
      case Err(e) => return Failed(e);
      case Ok(p) => threadPriority := p; return Done;
    }

    /** AsyncChannel::setProperty: "channel" names a registered channel
        (`channelFor`, None when there is none), "priority" the worker's
        priority, "queueSize" the queue bound. Channel::setProperty, which
        supports no property, handles every other name. */
    method SetProperty(name: string, value: string, channelFor: string -> Option<ChannelId>) returns (r: Status)
      modifies this`channel, this`threadPriority, this`queueSize
      ensures name == "channel" ==>
        if channelFor(value).Some?
        then r == Done && channel == channelFor(value) && unchanged(this`threadPriority, this`queueSize)
        else r == Failed(NotFound) && unchanged(this`channel, this`threadPriority, this`queueSize)
      ensures name == "priority" ==>
        if ParsePriority(value).Ok?
        then r == Done && threadPriority == ParsePriority(value).value && unchanged(this`channel, this`queueSize)
        else r == Failed(InvalidArgument) && unchanged(this`channel, this`threadPriority, this`queueSize)
      ensures name == "queueSize" ==>
        if ParseQueueSize(value).Ok?
        then r == Done && queueSize == ParseQueueSize(value).value && unchanged(this`channel, this`threadPriority)
        else r == Failed(Syntax) && unchanged(this`channel, this`threadPriority, this`queueSize)
      ensures name != "channel" && name != "priority" && name != "queueSize" ==>
        r == Failed(PropertyNotSupported) && unchanged(this`channel, this`threadPriority, this`queueSize)
    {
      if name == "channel" {
        match channelFor(value)
        case None => return Failed(NotFound);
        case Some(c) => channel := Some(c); return Done;
      } else if name == "priority" {
        r := SetPriority(value);
      } else if name == "queueSize" {
        match ParseQueueSize(value)
        case Err(e) => return Failed(e);
        case Ok(n) => queueSize := n; return Done;
      } else {
        return Failed(PropertyNotSupported);
      }
    }
  }
}
