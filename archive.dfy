/**
 * `archiveMessage`: the guards before a pinned message is copied to the
 * archive channel, as the list of outbound calls it makes.
 */
module Archive {
  import opened Wrappers
  import opened Discord
  import Config
  import Formatter

  /** An outbound platform call: a message sent to the archive channel, or a reaction added to the original. */
  datatype Action = Send(content: string, embeds: Option<seq<Embed>>) | React(emoji: string)

  /** The text of the archive message, mentioning the author and linking the original. */
  function ArchiveContent(m: Message): string {
    "Message from <@" + m.authorId + ">: " + m.url
  }

  /** The embeds passed to `send`: none when the formatter had no result. */
  function SentEmbeds(f: Formatter.Formatted): Option<seq<Embed>>
    requires !f.MemberMissing?
  {
    if f.Embeds? then Some(f.embeds) else None
  }

  /** Whether the guards before the `try` block let the message through. */
  predicate PassesGuards(m: Message, store: Config.Store, archiveFound: bool) {
    m.guild.Some? && m.guild.value in store && archiveFound
  }

  /**
   * `archiveMessage`. The `inGuild` and `isText` tests name methods without
   * calling them and never stop it; the guild, the config row and the fetched
   * archive channel do. An exception from the formatter or the send ends it
   * before the reaction.
   */
  function ArchivePlan(m: Message, store: Config.Store, archiveFound: bool, channelName: Option<string>, sendOk: bool)
    : (actions: seq<Action>)
    ensures |actions| <= 2
    ensures actions == [] <==>
      !PassesGuards(m, store, archiveFound) || Formatter.FormatEmbeds(m, channelName).MemberMissing?
    ensures actions != [] ==>
      actions[0] == Send(ArchiveContent(m), SentEmbeds(Formatter.FormatEmbeds(m, channelName)))
    ensures |actions| == 2 <==> actions != [] && sendOk
    ensures |actions| == 2 ==> actions[1] == React(store[m.guild.value].reactTrigger)
  {
    if m.guild.None? then []
    else if m.guild.value !in store then []
    else if !archiveFound then []
    else
      var formatted := Formatter.FormatEmbeds(m, channelName);
      if formatted.MemberMissing? then []
      else
        var send := Send(ArchiveContent(m), SentEmbeds(formatted));
        if !sendOk then [send]
        else [send, React(store[m.guild.value].reactTrigger)]
  }
}
