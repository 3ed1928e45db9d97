/**
 * The reaction-trigger evaluator: the chain of guards in the reaction-add
 * handler that decides whether the reacted message is handed to `safePin`.
 */
module Reactions {
  import opened Wrappers
  import opened Discord
  import Config

  /** A store lookup: it threw, or it returned a value that may be absent. */
  datatype Query<T> = Threw | Returned(result: Option<T>)

  /**
   * A reaction-add event. `partial` says the reaction arrived as a partial and
   * must be re-fetched, `fetchSucceeds` is that fetch's outcome, and
   * `messagePartial` says the parent message is still partial afterwards.
   * `count` is the reaction's current count.
   */
  datatype ReactionEvent = ReactionEvent(
    guild: Option<GuildId>,
    partial: bool,
    fetchSucceeds: bool,
    messagePartial: bool,
    emojiName: Option<string>,
    count: int)

  /** Why the handler stopped, or that it reached `safePin`. */
  datatype Decision = NoGuild | FetchFailed | StillPartial | OtherEmoji | BelowThreshold | Pin

  /** `emoji.name !== trigger` is false: both present and equal (null differs from undefined). */
  predicate SameEmoji(name: Option<string>, trigger: Option<string>) {
    name.Some? && trigger.Some? && name.value == trigger.value
  }

  /**
   * `count < (threshold ?? NaN)`: an absent threshold compares as NaN, so the
   * test is false and does not stop the handler.
   */
  predicate Below(count: int, threshold: Option<int>) {
    threshold.Some? && count < threshold.value
  }

  /**
   * The guards in order. A lookup that throws is caught without returning, so
   * it falls through to `safePin`.
   */
  function Evaluate(ev: ReactionEvent, trigger: Query<string>, threshold: Query<int>): (d: Decision)
    ensures d == Pin <==>
      && ev.guild.Some?
      && (ev.partial ==> ev.fetchSucceeds)
      && !ev.messagePartial
      && (|| trigger.Threw?
          || (&& SameEmoji(ev.emojiName, trigger.result)
              && (threshold.Threw? || threshold.result.None? || ev.count >= threshold.result.value)))
    ensures d == NoGuild <==> ev.guild.None?
    ensures d == FetchFailed <==> ev.guild.Some? && ev.partial && !ev.fetchSucceeds
    ensures d == StillPartial <==> ev.guild.Some? && (ev.partial ==> ev.fetchSucceeds) && ev.messagePartial
    ensures d == OtherEmoji ==> trigger.Returned? && !SameEmoji(ev.emojiName, trigger.result)
    ensures d == BelowThreshold ==>
      trigger.Returned? && SameEmoji(ev.emojiName, trigger.result) && threshold.Returned? && Below(ev.count, threshold.result)
  {
    if ev.guild.None? then NoGuild
    else if ev.partial && !ev.fetchSucceeds then FetchFailed
    else if ev.messagePartial then StillPartial
    else if trigger.Threw? then Pin
    else if !SameEmoji(ev.emojiName, trigger.result) then OtherEmoji
    else if threshold.Threw? then Pin
    else if Below(ev.count, threshold.result) then BelowThreshold
    else Pin
  }

  /** The trigger lookup `getReactTrigger` against the table, unless it throws. */
  function TriggerQuery(store: Config.Store, g: GuildId, readOk: bool): (q: Query<string>)
    ensures readOk <==> q.Returned?
    ensures readOk ==> (q.result.Some? <==> g in store)
  {
    if readOk then Returned(Config.GetReactTrigger(store, g)) else Threw
  }

  /** An uninitialized guild never pins, whatever the reaction, unless the lookup throws. */
  lemma UninitializedNeverPins(store: Config.Store, ev: ReactionEvent, threshold: Query<int>)
    requires ev.guild.Some? && ev.guild.value !in store
    ensures Evaluate(ev, TriggerQuery(store, ev.guild.value, true), threshold) != Pin
  {
  }

  /** With trigger 🔥 and threshold 3: 🔥 at 2 does not pin, 🔥 at 3 pins, 👍 never pins. */
  lemma FireThresholdExample(g: GuildId, count: int)
    ensures Evaluate(ReactionEvent(Some(g), false, true, false, Some("🔥"), 2), Returned(Some("🔥")), Returned(Some(3))) == BelowThreshold
    ensures Evaluate(ReactionEvent(Some(g), false, true, false, Some("🔥"), 3), Returned(Some("🔥")), Returned(Some(3))) == Pin
    ensures Evaluate(ReactionEvent(Some(g), false, true, false, Some("👍"), count), Returned(Some("🔥")), Returned(Some(3))) == OtherEmoji
  {
  }
}
