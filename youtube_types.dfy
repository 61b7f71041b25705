/** The decoded shape of the chat-fetch response (youtube_chat/src/youtube_types.rs),
    keeping only the fields the parser reads. */
module YoutubeTypes {
  import opened Wrappers

  /** Rust's `isize` on a 64-bit target, the type of the colour fields. */
  newtype Isize = x: int | -0x8000_0000_0000_0000 <= x < 0x8000_0000_0000_0000

  datatype Thumbnail = Thumbnail(url: string)

  /** `labelText` is the wire field `label`, a reserved word in Dafny. */
  datatype AccessibilityData = AccessibilityData(labelText: string)
  datatype Accessibility = Accessibility(accessibilityData: AccessibilityData)

  datatype Image = Image(thumbnails: seq<Thumbnail>)

  datatype Emoji = Emoji(emojiId: string, shortcuts: Option<seq<string>>, image: Image)

  /** One fragment of a rich-text message. */
  datatype MessageRun =
    | MessageText(text: string)
    | MessageEmoji(emoji: Emoji, isCustomeEmoji: Option<bool>)

  datatype CustomThumbnail = CustomThumbnail(thumbnails: seq<Thumbnail>)
  datatype Icon = Icon(iconType: string)
  datatype LiveChatAuthorBadgeRenderer = LiveChatAuthorBadgeRenderer(
    customThumbnail: Option<CustomThumbnail>,
    icon: Option<Icon>,
    tooltip: string)
  datatype AuthorBadge = AuthorBadge(liveChatAuthorBadgeRenderer: LiveChatAuthorBadgeRenderer)

  datatype AuthorName = AuthorName(simpleText: string)
  datatype AuthorPhoto = AuthorPhoto(thumbnails: seq<Thumbnail>)

  /** The fields every renderer carries (flattened into each of them on the wire). */
  datatype MessageRendererBase = MessageRendererBase(
    authorName: Option<AuthorName>,
    authorPhoto: AuthorPhoto,
    authorBadges: Option<seq<AuthorBadge>>,
    id: string,
    timestampUsec: string,
    authorExternalChannelId: string)

  datatype Message = Message(runs: seq<MessageRun>)

  datatype LiveChatTextMessageRenderer = LiveChatTextMessageRenderer(
    messageRendererBase: MessageRendererBase,
    message: Message)

  datatype PurchaseAmountText = PurchaseAmountText(simpleText: string)

  /** A super chat embeds a whole text-message renderer. */
  datatype LiveChatPaidMessageRenderer = LiveChatPaidMessageRenderer(
    liveChatTextMessageRenderer: LiveChatTextMessageRenderer,
    purchaseAmountText: PurchaseAmountText,
    bodyBackgroundColor: Isize)

  datatype Sticker = Sticker(thumbnails: seq<Thumbnail>, accessibility: Accessibility)

  datatype LiveChatPaidStickerRenderer = LiveChatPaidStickerRenderer(
    messageRendererBase: MessageRendererBase,
    purchaseAmountText: PurchaseAmountText,
    sticker: Sticker,
    backgroundColor: Isize)

  datatype HeaderSubText = HeaderSubText(runs: seq<MessageRun>)

  datatype LiveChatMembershipItemRenderer = LiveChatMembershipItemRenderer(
    messageRendererBase: MessageRendererBase,
    headerSubText: Option<HeaderSubText>)

  /** At most one of these is expected on the wire, but nothing enforces it. */
  datatype ActionItem = ActionItem(
    liveChatTextMessageRenderer: Option<LiveChatTextMessageRenderer>,
    liveChatPaidMessageRenderer: Option<LiveChatPaidMessageRenderer>,
    liveChatMembershipItemRenderer: Option<LiveChatMembershipItemRenderer>,
    liveChatPaidStickerRenderer: Option<LiveChatPaidStickerRenderer>)

  datatype AddChatItemAction = AddChatItemAction(item: ActionItem)

  /** An action without `addChatItemAction` is, for instance, a ticker action. */
  datatype Action = Action(addChatItemAction: Option<AddChatItemAction>)

  datatype InvalidationContinuationData = InvalidationContinuationData(continuation: string)
  datatype TimedContinuationData = TimedContinuationData(continuation: string)

  datatype Continuation = Continuation(
    invalidationContinuationData: Option<InvalidationContinuationData>,
    timedContinuationData: Option<TimedContinuationData>)

  datatype LiveChatContinuation = LiveChatContinuation(
    continuations: seq<Continuation>,
    actions: Option<seq<Action>>)

  datatype GetLiveChatResponseContinuationContents =
    GetLiveChatResponseContinuationContents(liveChatContinuation: LiveChatContinuation)

  datatype GetLiveChatResponse = GetLiveChatResponse(
    continuationContents: GetLiveChatResponseContinuationContents)
}
