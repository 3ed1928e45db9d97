/**
 * `formatEmbeds`: the embeds that represent a pinned message in the archive
 * channel. One of four disjoint layouts is chosen from the number of embeds E
 * and attachments A of the message.
 */
module Formatter {
  import opened Wrappers
  import opened Discord

  /**
   * The result of formatting: no result when the message's channel is not in
   * the guild's cache, an exception when the author is not a guild member any
   * more, or the embeds to send.
   */
  datatype Formatted = NoChannel | MemberMissing | Embeds(embeds: seq<Embed>)

  /** JavaScript truthiness of an optional string: present and non-empty. */
  predicate Truthy(s: Option<string>) {
    s.Some? && s.value != ""
  }

  /** `contentType?.startsWith("image/")`. */
  predicate IsImage(contentType: Option<string>) {
    contentType.Some? && "image/" <= contentType.value
  }

  /** Layout 1: E = 1 and A = 0. */
  predicate MergesSoleEmbed(m: Message) {
    |m.embeds| == 1 && |m.attachments| == 0
  }

  /** Layout 2: A = 1, E = 0 and the attachment is an image. */
  predicate ShowsSoleImage(m: Message) {
    |m.attachments| == 1 && |m.embeds| == 0 && IsImage(m.attachments[0].contentType)
  }

  /** Layout 3: A > 0 and E > 0. */
  predicate ExpandsAll(m: Message) {
    |m.attachments| > 0 && |m.embeds| > 0
  }

  /** The heading every archived copy starts with. */
  predicate HasArchiveHeader(e: Embed, m: Message, member: Member, channelName: string) {
    && e.description == Some(m.content)
    && e.url == Some(m.url)
    && e.footer == Some("Sent in " + channelName)
    && e.author == Some(Author(member.displayName + "#" + m.discriminator, member.avatarUrl, m.url))
    && e.timestamp == Some(m.createdTimestamp)
    && e.title.None? && e.thumbnail.None?
  }

  /** `e` is the basic embed built for attachment `a`. */
  predicate LinksTo(e: Embed, a: Attachment) {
    && e.title == Some("🔗")
    && e.url == Some(a.url)
    && e.description == Some(a.url)
    && e.image == (if IsImage(a.contentType) then Some(a.proxyUrl) else None)
    && e.author.None? && e.footer.None? && e.timestamp.None? && e.thumbnail.None?
    && e.fields == []
  }

  /** The `attachments.map(...)` of layout 3: one basic embed per attachment, in order. */
  function AttachmentEmbeds(atts: seq<Attachment>): (r: seq<Embed>)
    ensures |r| == |atts|
    ensures forall i :: 0 <= i < |atts| ==> LinksTo(r[i], atts[i])
  {
    if atts == [] then []
    else
      var a := atts[0];
      var e := BlankEmbed.(title := Some("🔗"), url := Some(a.url), description := Some(a.url),
                           image := if IsImage(a.contentType) then Some(a.proxyUrl) else None);
      [e] + AttachmentEmbeds(atts[1..])
  }

  /** The field `(title, description ?? "")` exists when the sole embed has a non-empty title. */
  predicate HasTitleField(first: Embed) {
    Truthy(first.title)
  }

  /** The link field exists when the sole embed's url is non-empty and differs from the content. */
  predicate HasLinkField(first: Embed, content: string) {
    Truthy(first.url) && first.url.value != content
  }

  function FormatEmbeds(m: Message, channelName: Option<string>): (r: Formatted)
    ensures r.NoChannel? <==> channelName.None?
    ensures r.MemberMissing? <==> channelName.Some? && m.member.None?
    ensures r.Embeds? ==> |r.embeds| >= 1 && HasArchiveHeader(r.embeds[0], m, m.member.value, channelName.value)
    // Layout 1: a single embed carrying the sole embed's image and title/link fields.
    ensures r.Embeds? && MergesSoleEmbed(m) ==>
      var first, fields := m.embeds[0], r.embeds[0].fields;
      && |r.embeds| == 1
      && r.embeds[0].image == (if first.image.Some? then first.image else first.thumbnail)
      && |fields| == (if HasTitleField(first) then 1 else 0) + (if HasLinkField(first, m.content) then 1 else 0)
      && (HasTitleField(first) ==> fields[0] == Field(first.title.value, first.description.GetOr(""), false))
      && (HasLinkField(first, m.content) ==> fields[|fields| - 1] == Field("🔗", first.url.value, false))
    // Layout 2: a single embed showing the attachment.
    ensures r.Embeds? && ShowsSoleImage(m) ==>
      |r.embeds| == 1 && r.embeds[0].image == Some(m.attachments[0].url) && r.embeds[0].fields == []
    // Layout 3: main embed, embeds[1..], then one embed per attachment.
    ensures r.Embeds? && ExpandsAll(m) ==>
      && |r.embeds| == |m.embeds| + |m.attachments|
      && r.embeds[0].fields == [Field("See attached", "🔗", false)]
      && r.embeds[0].image.None?
      && r.embeds[1..|m.embeds|] == m.embeds[1..]
      && forall i :: 0 <= i < |m.attachments| ==> LinksTo(r.embeds[|m.embeds| + i], m.attachments[i])
    // Layout 4: only the main embed; further embeds and non-image attachments are dropped.
    ensures r.Embeds? && !MergesSoleEmbed(m) && !ShowsSoleImage(m) && !ExpandsAll(m) ==>
      |r.embeds| == 1 && r.embeds[0].image.None? && r.embeds[0].fields == []
  {
    match channelName
    case None => NoChannel
    case Some(name) =>
      match m.member
      case None => MemberMissing
      case Some(member) =>
        var main := BlankEmbed.(
          author := Some(Author(member.displayName + "#" + m.discriminator, member.avatarUrl, m.url)),
          url := Some(m.url),
          footer := Some("Sent in " + name),
          timestamp := Some(m.createdTimestamp),
          description := Some(m.content));
        if MergesSoleEmbed(m) then
          var first := m.embeds[0];
          var image := if first.image.Some? then first.image else first.thumbnail;
          var titleField := if HasTitleField(first) then [Field(first.title.value, first.description.GetOr(""), false)] else [];
          var linkField := if HasLinkField(first, m.content) then [Field("🔗", first.url.value, false)] else [];
          Embeds([main.(image := image, fields := titleField + linkField)])
        else if ShowsSoleImage(m) then
          Embeds([main.(image := Some(m.attachments[0].url))])
        else if ExpandsAll(m) then
          Embeds([main.(fields := [Field("See attached", "🔗", false)])] + m.embeds[1..] + AttachmentEmbeds(m.attachments))
        else
          Embeds([main])
  }

  /** A message with one embed and two attachments is archived as three embeds. */
  lemma OneEmbedTwoAttachments(m: Message, name: string)
    requires m.member.Some? && |m.embeds| == 1 && |m.attachments| == 2
    ensures FormatEmbeds(m, Some(name)).Embeds?
    ensures |FormatEmbeds(m, Some(name)).embeds| == 3
    ensures FormatEmbeds(m, Some(name)).embeds[0].fields == [Field("See attached", "🔗", false)]
  {
  }
}
