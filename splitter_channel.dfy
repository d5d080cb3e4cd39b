/** Poco::SplitterChannel: a channel that passes every message on to each
    channel of its list, in list order. */
module Splitting {
  import opened Results
  import opened Seqs
  import opened Text
  import opened Logging

  /** One call `channel->log(msg)`. */
  datatype Sent = Sent(channel: ChannelId, msg: Message)

  /** The calls that pass one message on to a list of channels. */
  function Broadcast(channels: seq<ChannelId>, msg: Message): (r: seq<Sent>)
    ensures |r| == |channels|
    ensures forall i :: 0 <= i < |channels| ==> r[i] == Sent(channels[i], msg)
  {
    if channels == [] then [] else [Sent(channels[0], msg)] + Broadcast(channels[1..], msg)
  }

  /** The channels registered under the tokens, up to the first token with
      no channel (channelForName throws there). */
  function Resolved(tokens: seq<string>, channelFor: string -> Option<ChannelId>): (r: seq<ChannelId>)
    ensures |r| <= |tokens|
    ensures forall i :: 0 <= i < |r| ==> channelFor(tokens[i]) == Some(r[i])
    ensures |r| < |tokens| ==> channelFor(tokens[|r|]).None?
  {
    if tokens == [] then []
    else match channelFor(tokens[0])
      case None => []
      case Some(c) => [c] + Resolved(tokens[1..], channelFor)
  }

  /** name.compare(0, 7, "channel") == 0: the name begins with "channel". */
  predicate NamesChannels(name: string) {
    |name| >= 7 && name[..7] == "channel"
  }

  /** The separators of the channel list. */
  const SEPARATORS: string := ",;"

  class SplitterChannel {
    var channels: seq<ChannelId>
    /** Every message passed on so far, in order. */
    var sent: seq<Sent>

    constructor ()
      ensures channels == [] && sent == []
    {
      channels := [];
      sent := [];
    }

    /** SplitterChannel::addChannel: append; a channel may appear more than
        once. A null channel is refused. */
    method AddChannel(channel: Option<ChannelId>) returns (r: Status)
      modifies this`channels
      ensures channel.None? ==> r == Failed(NullPointer) && channels == old(channels)
      ensures channel.Some? ==> r == Done && channels == old(channels) + [channel.value]
    {
      if channel.None? { return Failed(NullPointer); }
      channels := channels + [channel.value];
      return Done;
    }

    /** SplitterChannel::removeChannel: erase the first occurrence. */
    method RemoveChannel(channel: ChannelId)
      modifies this`channels
      ensures channels == RemoveFirst(old(channels), channel)
    {
      var rest, found := EraseFirst(channels, channel);
      channels := rest;
    }

    /** SplitterChannel::setProperty: a name beginning with "channel" takes
        a list of channel names separated by ',' or ';'; each non-blank name
        is looked up (`channelFor`) and added, in order. An unknown name
        stops the walk with NotFound, keeping the channels added before it.
        Channel::setProperty, which supports no property, handles every
        other name. */
    method SetProperty(name: string, value: string, channelFor: string -> Option<ChannelId>) returns (r: Status)
      modifies this`channels
      ensures !NamesChannels(name) ==> r == Failed(PropertyNotSupported) && channels == old(channels)
      ensures NamesChannels(name) ==>
        && channels == old(channels) + Resolved(Tokens(value, SEPARATORS), channelFor)
        && (r == Done <==> |Resolved(Tokens(value, SEPARATORS), channelFor)| == |Tokens(value, SEPARATORS)|)
        && (r != Done ==> r == Failed(NotFound))
    {
      if !NamesChannels(name) { return Failed(PropertyNotSupported); }
      r := AddChannels(Tokens(value, SEPARATORS), channelFor);
    }

    /** The token loop of setProperty: add the channel of each token in
        turn; an unknown token ends the loop with NotFound. */
    method AddChannels(tokens: seq<string>, channelFor: string -> Option<ChannelId>) returns (r: Status)
      modifies this`channels
      ensures channels == old(channels) + Resolved(tokens, channelFor)
      ensures r == Done <==> |Resolved(tokens, channelFor)| == |tokens|
      ensures r != Done ==> r == Failed(NotFound)
    {
      ghost var resolved := Resolved(tokens, channelFor);
      var i := 0;
      while i < |tokens|
        invariant 0 <= i <= |resolved|
        invariant channels == old(channels) + resolved[..i]
      {
        var channel := channelFor(tokens[i]);
        if channel.None? {
          ResolvedUnknown(tokens, i, channelFor);
          assert resolved[..i] == resolved;
          return Failed(NotFound);
        }
        ResolvedKnown(tokens, i, channelFor);
        PrefixStep(resolved, i);
        ConcatAssoc(old(channels), resolved[..i], [channel.value]);
        r := AddChannel(channel);
        i := i + 1;
      }
      assert resolved[..i] == resolved;
      return Done;
    }

    /** SplitterChannel::log: pass the message on to every channel, in
        order. */
    method Log(msg: Message)
      modifies this`sent
      ensures sent == old(sent) + Broadcast(channels, msg)
    {
      var i := 0;
      while i < |channels|
        invariant 0 <= i <= |channels|
        invariant sent == old(sent) + Broadcast(channels[..i], msg)
      {
        assert Broadcast(channels[..i + 1], msg) == Broadcast(channels[..i], msg) + [Sent(channels[i], msg)];
        sent := sent + [Sent(channels[i], msg)];
        i := i + 1;
      }
      assert channels[..i] == channels;
    }

    /** SplitterChannel::close: drop every channel. */
    method Close()
      modifies this`channels
      ensures channels == []
    {
      channels := [];
    }

    /** SplitterChannel::count. */
    function Count(): (r: nat)
      reads this`channels
      ensures r == |channels|
    {
      |channels|
    }
  }

  /** A known token inside the resolved prefix's reach belongs to it. */
  lemma ResolvedKnown(tokens: seq<string>, i: nat, channelFor: string -> Option<ChannelId>)
    requires i < |tokens| && i <= |Resolved(tokens, channelFor)| && channelFor(tokens[i]).Some?
    ensures i < |Resolved(tokens, channelFor)| && Resolved(tokens, channelFor)[i] == channelFor(tokens[i]).value
  {
  }

  /** An unknown token ends the resolved prefix. */
  lemma ResolvedUnknown(tokens: seq<string>, i: nat, channelFor: string -> Option<ChannelId>)
    requires i < |tokens| && i <= |Resolved(tokens, channelFor)| && channelFor(tokens[i]).None?
    ensures |Resolved(tokens, channelFor)| == i
  {
  }
}
