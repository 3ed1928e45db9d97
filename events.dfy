/**
 * The two event handlers: a reaction that reaches the threshold pins the
 * message, and the platform's pin notice evicts the oldest pin and archives
 * the pinned message.
 */
module Events {
  import opened Wrappers
  import opened Discord
  import Config
  import Reactions
  import PinManager
  import Archive

  /** The reaction-add handler, on the channel of the reacted message. */
  method OnReactionAdd(ch: PinManager.Channel, store: Config.Store, ev: Reactions.ReactionEvent,
                       triggerReadOk: bool, countReadOk: bool, message: MessageId, pinnable: bool)
    returns (d: Reactions.Decision)
    modifies ch
    ensures ev.guild.Some? ==>
      d == Reactions.Evaluate(ev, Reactions.TriggerQuery(store, ev.guild.value, triggerReadOk),
                              if countReadOk then Reactions.Returned(Config.GetReactCount(store, ev.guild.value)) else Reactions.Threw)
    ensures ev.guild.None? ==> d == Reactions.NoGuild
    ensures ch.pinned == if d == Reactions.Pin then PinManager.SafePinned(old(ch.pinned), message, pinnable) else old(ch.pinned)
  {
    if ev.guild.None? {
      return Reactions.NoGuild;
    }
    var g := ev.guild.value;
    var trigger := Reactions.TriggerQuery(store, g, triggerReadOk);
    var threshold := if countReadOk then Reactions.Returned(Config.GetReactCount(store, g)) else Reactions.Threw;
    d := Reactions.Evaluate(ev, trigger, threshold);
    if d == Reactions.Pin {
      ch.SafePin(message, pinnable);
    }
  }

  /**
   * The message-create handler: only a pin notice in a guild is acted on; it
   * runs `maybeUnpin` on the pinned message's channel, then `archiveMessage`.
   */
  method OnMessageCreate(ch: PinManager.Channel, inGuild: bool, isPinNotice: bool, pinnedMessage: Message,
                         store: Config.Store, archiveFound: bool, channelName: Option<string>, sendOk: bool)
    returns (actions: seq<Archive.Action>)
    modifies ch
    ensures inGuild && isPinNotice ==>
      ch.pinned == PinManager.Unpinned(old(ch.pinned))
      && actions == Archive.ArchivePlan(pinnedMessage, store, archiveFound, channelName, sendOk)
    ensures !(inGuild && isPinNotice) ==> ch.pinned == old(ch.pinned) && actions == []
  {
    if !inGuild || !isPinNotice {
      return [];
    }
    ch.MaybeUnpin();
    actions := Archive.ArchivePlan(pinnedMessage, store, archiveFound, channelName, sendOk);
  }

  /**
   * A reaction pin followed by its pin notice: a list within the eviction size
   * stays within it after the pin, and is below it once the notice has run.
   */
  method PinAndNotice(ch: PinManager.Channel, message: MessageId, pinnable: bool)
    requires |ch.pinned| <= PinManager.EvictAt
    modifies ch
    ensures |ch.pinned| < PinManager.EvictAt
    ensures pinnable && message !in old(ch.pinned) ==> |ch.pinned| > 0 && ch.pinned[0] == message
  {
    ch.SafePin(message, pinnable);
    ch.MaybeUnpin();
  }
}
