/**
 * The chat-platform objects the pin archiver reads, reduced to the fields it
 * uses. Identifiers are kept as strings, as the platform delivers them.
 */
module Discord {
  import opened Wrappers

  type GuildId = string
  type ChannelId = string
  type MessageId = string

  /** One `name: value` field of a rich embed. */
  datatype Field = Field(name: string, value: string, inline: bool)

  /** The author block of a rich embed. */
  datatype Author = Author(name: string, iconUrl: string, url: string)

  /**
   * A rich embed. `image` and `thumbnail` hold the URL of the image object
   * when it is present; `footer` holds the footer text.
   */
  datatype Embed = Embed(
    title: Option<string>,
    description: Option<string>,
    url: Option<string>,
    author: Option<Author>,
    footer: Option<string>,
    timestamp: Option<int>,
    image: Option<string>,
    thumbnail: Option<string>,
    fields: seq<Field>)

  /** A freshly built embed with nothing set. */
  const BlankEmbed: Embed := Embed(None, None, None, None, None, None, None, None, [])

  /** A file attached to a message. */
  datatype Attachment = Attachment(url: string, proxyUrl: string, contentType: Option<string>)

  /** The guild member who wrote a message. */
  datatype Member = Member(displayName: string, avatarUrl: string)

  /**
   * A complete (non-partial) message. `member` is absent when the author is
   * no longer a member of the guild; `attachments` keeps the collection's order.
   */
  datatype Message = Message(
    id: MessageId,
    guild: Option<GuildId>,
    authorId: string,
    discriminator: string,
    member: Option<Member>,
    content: string,
    url: string,
    createdTimestamp: int,
    embeds: seq<Embed>,
    attachments: seq<Attachment>)
}
