/** The normalised chat model handed to callers (youtube_chat/src/item.rs). */
module Item {
  import opened Wrappers

  /** An image with its accessibility text. */
  datatype ImageItem = ImageItem(url: string, alt: Option<string>)

  /** A custom or standard emoji inside a message. The Rust field name
      `is_custome_emoji` keeps the wire format's spelling. */
  datatype EmojiItem = EmojiItem(
    imageItem: Option<ImageItem>,
    emojiText: Option<string>,
    isCustomeEmoji: Option<bool>)

  datatype MessageItem = Text(text: string) | Emoji(emoji: EmojiItem)

  /** A membership badge: its image and its tooltip text (Rust field
      `label`, a reserved word in Dafny). */
  datatype Badge = Badge(thumbnail: ImageItem, labelText: string)

  /** The paid part of a super chat or super sticker. */
  datatype SuperChat = SuperChat(amount: string, color: string, sticker: Option<ImageItem>)

  datatype Author = Author(
    name: Option<string>,
    thumbnail: Option<ImageItem>,
    channelId: string,
    badge: Option<Badge>)

  /** One normalised chat event. `timestamp` is in nanoseconds since the
      Unix epoch (the Rust code holds a `DateTime<Utc>`). */
  datatype ChatItem = ChatItem(
    id: string,
    author: Author,
    message: seq<MessageItem>,
    superchat: Option<SuperChat>,
    isMembership: bool,
    isVerified: bool,
    isOwner: bool,
    isModerator: bool,
    timestamp: Option<int>)
}
