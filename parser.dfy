/** The normalisation engine (youtube_chat/src/parser.rs): the bootstrap
    extractor that reads the session parameters out of a watch page, and the
    mapper that turns a decoded chat-fetch response into chat items and the
    next continuation token. */
module Parser {
  import opened Wrappers
  import opened Errors
  import opened Item
  import opened YoutubeTypes
  import opened Request
  import IntParse

  // ---------------------------------------------------------------------
  // Bootstrap extractor (get_options_from_live_page)
  // ---------------------------------------------------------------------

  /** The five fixed searches run over the watch page, in the order the
      extractor runs them. */
  datatype Pattern = CanonicalLink | IsReplay | ApiKey | ClientVersion | InitialContinuation {

    /** The regular expression compiled for this search. */
    function Regex(): string {
      match this
      case CanonicalLink => "<link rel=\"canonical\" href=\"https://www.youtube.com/watch\\?v=(.+?)\">"
      case IsReplay => "['\"]isReplay['\"]:\\s*(true)"
      case ApiKey => "['\"]INNERTUBE_API_KEY['\"]:\\s*['\"](.+?)['\"]"
      case ClientVersion => "['\"]clientVersion['\"]:\\s*['\"]([\\d.]+?)['\"]"
      case InitialContinuation => "['\"]continuation['\"]:\\s*['\"](.+?)['\"]"
    }
  }

  /** The regular-expression engine, left abstract: `find(p, data)` is the
      text of capture group 1 of the first match of `p.Regex()` in `data`
      (for `IsReplay` only whether there is a match is used), or None when
      the pattern does not match. */
  type Search = (Pattern, string) -> Option<string>

  /** Reads the session parameters and the live id out of a watch page.
      Each extraction returns early on failure; the replay marker is checked
      before the API key is searched for. */
  function GetOptionsFromLivePage(data: string, find: Search): (r: Result<(RequestOptions, string), Error>)
    ensures find(CanonicalLink, data).None? ==> r == Failure(LiveStreamNotFound)
    ensures find(CanonicalLink, data).Some? && find(IsReplay, data).Some? ==>
              r == Failure(FinishedLive(find(CanonicalLink, data).value))
    ensures r.Success? <==>
              && find(CanonicalLink, data).Some?
              && find(IsReplay, data).None?
              && find(ApiKey, data).Some?
              && find(ClientVersion, data).Some?
              && find(InitialContinuation, data).Some?
    ensures r.Success? ==>
              r.value == (RequestOptions(find(ApiKey, data).value,
                                         find(ClientVersion, data).value,
                                         find(InitialContinuation, data).value),
                          find(CanonicalLink, data).value)
  {
    match find(CanonicalLink, data)
    case None => Failure(LiveStreamNotFound)
    case Some(liveId) =>
      if find(IsReplay, data).Some? then Failure(FinishedLive(liveId))
      else
        match find(ApiKey, data)
        case None => Failure(FinishedLive(liveId))
        case Some(apiKey) =>
          match find(ClientVersion, data)
          case None => Failure(ClientVersionNotFound)
          case Some(clientVersion) =>
            match find(InitialContinuation, data)
            case None => Failure(ClientVersionNotFound)
            case Some(continuation) =>
              Success((RequestOptions(apiKey, clientVersion, continuation), liveId))
  }

  /** Which error a failed bootstrap reports: the first search, in the
      extractor's order, that does not give what is needed decides it. */
  lemma BootstrapErrors(data: string, find: Search)
    requires find(CanonicalLink, data).Some? && find(IsReplay, data).None?
    ensures find(ApiKey, data).None? ==>
              GetOptionsFromLivePage(data, find) == Failure(FinishedLive(find(CanonicalLink, data).value))
    ensures find(ApiKey, data).Some? && find(ClientVersion, data).None? ==>
              GetOptionsFromLivePage(data, find) == Failure(ClientVersionNotFound)
    ensures find(ApiKey, data).Some? && find(ClientVersion, data).Some? && find(InitialContinuation, data).None? ==>
              GetOptionsFromLivePage(data, find) == Failure(ClientVersionNotFound)
  {
  }

  /** The replay check runs before the field searches: once the live id is
      found and the replay marker matches, what the API key, client version
      and continuation searches would give makes no difference. */
  lemma ReplayCheckPrecedesFieldSearches(data: string, find: Search, other: Search)
    requires find(CanonicalLink, data) == other(CanonicalLink, data)
    requires find(IsReplay, data) == other(IsReplay, data)
    requires find(CanonicalLink, data).None? || find(IsReplay, data).Some?
    ensures GetOptionsFromLivePage(data, find) == GetOptionsFromLivePage(data, other)
    ensures GetOptionsFromLivePage(data, find).Failure?
  {
  }

  // ---------------------------------------------------------------------
  // Thumbnails and colours
  // ---------------------------------------------------------------------

  /** The first thumbnail, as an image with the given alt text. */
  function ParseThumbnailsToImageItem(thumbnails: seq<Thumbnail>, alt: Option<string>): (r: Option<ImageItem>)
    ensures r.None? <==> thumbnails == []
    ensures r.Some? ==> r.value.url == thumbnails[0].url && r.value.alt == alt
  {
    if thumbnails == [] then None else Some(ImageItem(thumbnails[0].url, alt))
  }

  type Byte = b: int | 0 <= b < 256

  const HexDigits: string := "0123456789ABCDEF"

  /** `count` bytes of `w`, least significant first. */
  function LeBytes(w: nat, count: nat): (bytes: seq<Byte>)
    ensures |bytes| == count
  {
    if count == 0 then [] else [w % 256] + LeBytes(w / 256, count - 1)
  }

  /** `isize::to_ne_bytes`, assuming a 64-bit little-endian target: the
      two's-complement bytes, least significant first. */
  function NeBytes(n: Isize): (bytes: seq<Byte>)
    ensures |bytes| == 8
  {
    LeBytes((n as int) % 0x1_0000_0000_0000_0000, 8)
  }

  /** `format!("{:02X}", b)`. */
  function HexByte(b: Byte): string {
    [HexDigits[b / 16], HexDigits[b % 16]]
  }

  function HexOfBytes(bytes: seq<Byte>): string {
    if bytes == [] then "" else HexByte(bytes[0]) + HexOfBytes(bytes[1..])
  }

  /** The colour string of a super chat: `#` and the first four native bytes
      of the colour number in upper-case hex. */
  function ColorHex(colorNumber: Isize): string {
    "#" + HexOfBytes(NeBytes(colorNumber)[..4])
  }

  /** `convert_color_to_hex6`: folds the first four native bytes into the
      string one byte at a time. */
  method ConvertColorToHex6(colorNumber: Isize) returns (hexString: string)
    ensures hexString == ColorHex(colorNumber)
  {
    var bytes := NeBytes(colorNumber);
    hexString := "#";
    var i := 0;
    while i < 4
      invariant 0 <= i <= 4
      invariant hexString + HexOfBytes(bytes[i..4]) == ColorHex(colorNumber)
    {
      assert bytes[i..4][1..] == bytes[i + 1..4];
      hexString := hexString + HexByte(bytes[i]);
      i := i + 1;
    }
  }

  lemma {:induction false} HexOfBytesShape(bytes: seq<Byte>)
    ensures |HexOfBytes(bytes)| == 2 * |bytes|
    ensures forall i :: 0 <= i < |HexOfBytes(bytes)| ==> HexOfBytes(bytes)[i] in HexDigits
  {
    if bytes != [] {
      HexOfBytesShape(bytes[1..]);
    }
  }

  /** The colour is always `#` followed by exactly eight upper-case hex
      digits, nine characters in all. */
  lemma ColorHexShape(colorNumber: Isize)
    ensures |ColorHex(colorNumber)| == 9
    ensures ColorHex(colorNumber)[0] == '#'
    ensures forall i :: 1 <= i < 9 ==> ColorHex(colorNumber)[i] in HexDigits
  {
    var bytes := NeBytes(colorNumber)[..4];
    HexOfBytesShape(bytes);
    assert ColorHex(colorNumber)[1..] == HexOfBytes(bytes);
  }

  /** The value of a hex digit (the inverse of indexing `HexDigits`). */
  function HexValue(c: char): (v: nat)
    ensures v < 16
  {
    if '0' <= c <= '9' then (c as int) - ('0' as int)
    else if 'A' <= c <= 'F' then (c as int) - ('A' as int) + 10
    else 0
  }

  /** Reads pairs of hex digits back into bytes. */
  function BytesOfHex(s: string): seq<Byte>
    decreases |s|
  {
    if |s| < 2 then [] else [HexValue(s[0]) * 16 + HexValue(s[1])] + BytesOfHex(s[2..])
  }

  /** The number whose bytes, least significant first, are `bytes`. */
  function LeValue(bytes: seq<Byte>): nat {
    if bytes == [] then 0 else bytes[0] + 256 * LeValue(bytes[1..])
  }

  /** Reads a colour string back into the number it came from, modulo 2^32. */
  function ColorNumberOfHex(hex: string): nat {
    if hex == [] then 0 else LeValue(BytesOfHex(hex[1..]))
  }

  /** Reading a hex digit gives back its position in `HexDigits`. */
  lemma HexValueOfDigit(d: nat)
    requires d < 16
    ensures HexValue(HexDigits[d]) == d
  {
  }

  lemma {:induction false} BytesOfHexOfBytes(bytes: seq<Byte>)
    ensures BytesOfHex(HexOfBytes(bytes)) == bytes
  {
    if bytes != [] {
      var b, rest := bytes[0], bytes[1..];
      var s := HexOfBytes(bytes);
      assert s == HexByte(b) + HexOfBytes(rest);
      HexValueOfDigit(b / 16);
      HexValueOfDigit(b % 16);
      assert s[0] == HexDigits[b / 16] && s[1] == HexDigits[b % 16];
      assert s[2..] == HexOfBytes(rest);
      BytesOfHexOfBytes(rest);
      assert BytesOfHex(s) == [b] + BytesOfHex(s[2..]);
    }
  }

  function Pow256(k: nat): (p: nat)
    ensures p > 0
  {
    if k == 0 then 1 else 256 * Pow256(k - 1)
  }

  lemma MulBounds(d: int, k: int)
    requires d > 0
    ensures k >= 1 ==> d * k >= d
    ensures k <= -1 ==> d * k <= -d
  {
  }

  /** Division by a positive number has one quotient and one remainder. */
  lemma DivModUnique(w: int, d: int, t: int, s: int)
    requires d > 0 && 0 <= s < d && w == d * t + s
    ensures w / d == t && w % d == s
  {
    var t', s' := w / d, w % d;
    assert d * (t - t') == s' - s by {
      assert d * t - d * t' == d * (t - t');
    }
    MulBounds(d, t - t');
  }

  /** w % (256 m) splits into the low byte and the rest. */
  lemma ModSplit(w: nat, m: nat)
    requires m > 0
    ensures w % (256 * m) == w % 256 + 256 * ((w / 256) % m)
  {
    var q, r := w / 256, w % 256;
    var t, u := q / m, q % m;
    assert w == 256 * q + r;
    assert q == m * t + u;
    assert 256 * q == (256 * m) * t + 256 * u by {
      assert 256 * (m * t + u) == 256 * (m * t) + 256 * u;
      assert 256 * (m * t) == (256 * m) * t;
    }
    assert 256 * u + r < 256 * m by {
      assert u <= m - 1;
      assert 256 * u <= 256 * (m - 1);
    }
    DivModUnique(w, 256 * m, t, 256 * u + r);
  }

  lemma {:induction false} LeValueOfLeBytes(w: nat, count: nat)
    ensures LeValue(LeBytes(w, count)) == w % Pow256(count)
  {
    if count > 0 {
      LeValueOfLeBytes(w / 256, count - 1);
      ModSplit(w, Pow256(count - 1));
      assert LeBytes(w, count)[1..] == LeBytes(w / 256, count - 1);
    }
  }

  lemma {:induction false} LeBytesPrefix(w: nat, count: nat, k: nat)
    requires k <= count
    ensures LeBytes(w, count)[..k] == LeBytes(w, k)
  {
    if k > 0 {
      LeBytesPrefix(w / 256, count - 1, k - 1);
      assert LeBytes(w, count)[..k] == [w % 256] + LeBytes(w / 256, count - 1)[..k - 1];
    }
  }

  /** The colour string determines the colour number modulo 2^32, and
      nothing more: reading it back gives the low 32 bits. */
  lemma ColorHexRoundTrip(colorNumber: Isize)
    ensures ColorNumberOfHex(ColorHex(colorNumber)) == (colorNumber as int) % 0x1_0000_0000
  {
    var w := (colorNumber as int) % 0x1_0000_0000_0000_0000;
    LeBytesPrefix(w, 8, 4);
    var bytes := LeBytes(w, 4);
    BytesOfHexOfBytes(bytes);
    assert ColorHex(colorNumber)[1..] == HexOfBytes(bytes);
    LeValueOfLeBytes(w, 4);
    assert Pow256(4) == 0x1_0000_0000;
    assert w % 0x1_0000_0000 == (colorNumber as int) % 0x1_0000_0000 by {
      ModSplitWide(colorNumber as int);
    }
  }

  lemma ModSplitWide(n: int)
    ensures (n % 0x1_0000_0000_0000_0000) % 0x1_0000_0000 == n % 0x1_0000_0000
  {
  }

  /** Two colour numbers give the same string exactly when they agree in
      their low 32 bits. */
  lemma ColorHexEqualIff(a: Isize, b: Isize)
    ensures ColorHex(a) == ColorHex(b) <==> (a as int) % 0x1_0000_0000 == (b as int) % 0x1_0000_0000
  {
    ColorHexRoundTrip(a);
    ColorHexRoundTrip(b);
    if (a as int) % 0x1_0000_0000 == (b as int) % 0x1_0000_0000 {
      var wa := (a as int) % 0x1_0000_0000_0000_0000;
      var wb := (b as int) % 0x1_0000_0000_0000_0000;
      LeBytesPrefix(wa, 8, 4);
      LeBytesPrefix(wb, 8, 4);
      ModSplitWide(a as int);
      ModSplitWide(b as int);
      LeBytesLowBits(wa, wb, 4);
    }
  }

  /** LeBytes(w, k) only looks at w modulo 256^k. */
  lemma {:induction false} LeBytesLowBits(w: nat, v: nat, count: nat)
    requires w % Pow256(count) == v % Pow256(count)
    ensures LeBytes(w, count) == LeBytes(v, count)
  {
    if count > 0 {
      ModSplit(w, Pow256(count - 1));
      ModSplit(v, Pow256(count - 1));
      assert w % 256 == (w % Pow256(count)) % 256 by { ModOfMod(w, Pow256(count - 1)); }
      assert v % 256 == (v % Pow256(count)) % 256 by { ModOfMod(v, Pow256(count - 1)); }
      LeBytesLowBits(w / 256, v / 256, count - 1);
    }
  }

  lemma ModOfMod(w: nat, m: nat)
    requires m > 0
    ensures (w % (256 * m)) % 256 == w % 256
  {
    ModSplit(w, m);
  }

  /** Green (0x00FF00) comes out with its bytes least significant first. */
  lemma ColorHexGreen()
    ensures ColorHex(0x00FF00) == "#00FF0000"
  {
    assert NeBytes(0x00FF00)[..4] == [0, 255, 0, 0];
  }

  // ---------------------------------------------------------------------
  // Message runs (parse_message)
  // ---------------------------------------------------------------------

  /** The first shortcut of an emoji, if it has any. */
  function FirstShortcut(emoji: Emoji): Option<string> {
    match emoji.shortcuts
    case Some(shortcuts) => if shortcuts == [] then None else Some(shortcuts[0])
    case None => None
  }

  /** One run: text verbatim, or an emoji with its first image and its
      shortcut or id. */
  function ParseRun(run: MessageRun): (item: MessageItem)
    ensures run.MessageText? ==> item == Text(run.text)
    ensures run.MessageEmoji? ==>
              && item.Emoji?
              && item.emoji.isCustomeEmoji == run.isCustomeEmoji
              && item.emoji.emojiText == (if run.isCustomeEmoji == Some(true) then FirstShortcut(run.emoji)
                                          else Some(run.emoji.emojiId))
              && item.emoji.imageItem == ParseThumbnailsToImageItem(run.emoji.image.thumbnails, FirstShortcut(run.emoji))
  {
    match run
    case MessageText(text) => Text(text)
    case MessageEmoji(emoji, isCustomeEmoji) =>
      var shortcut := FirstShortcut(emoji);
      var imageItem :=
        if emoji.image.thumbnails == [] then None
        else Some(ImageItem(emoji.image.thumbnails[0].url, shortcut));
      var emojiText := if isCustomeEmoji == Some(true) then shortcut else Some(emoji.emojiId);
      MessageItem.Emoji(EmojiItem(imageItem, emojiText, isCustomeEmoji))
  }

  /** The runs, decoded one for one and in order. */
  function ParseMessage(runs: seq<MessageRun>): (items: seq<MessageItem>)
    ensures |items| == |runs|
    ensures forall i :: 0 <= i < |runs| ==> items[i] == ParseRun(runs[i])
  {
    if runs == [] then [] else [ParseRun(runs[0])] + ParseMessage(runs[1..])
  }

  /** Decoding never merges or reorders: it distributes over concatenation. */
  lemma ParseMessageAppend(a: seq<MessageRun>, b: seq<MessageRun>)
    ensures ParseMessage(a + b) == ParseMessage(a) + ParseMessage(b)
  {
  }

  // ---------------------------------------------------------------------
  // The renderer adapter
  // ---------------------------------------------------------------------

  /** The four payload shapes a chat action can carry. */
  datatype Renderer =
    | TextMessage(textRenderer: LiveChatTextMessageRenderer)
    | PaidMessage(paidRenderer: LiveChatPaidMessageRenderer)
    | MembershipItem(membershipRenderer: LiveChatMembershipItemRenderer)
    | PaidSticker(stickerRenderer: LiveChatPaidStickerRenderer)
  {
    /** The shared base, wherever the variant keeps it: a paid message keeps it
        inside its embedded text-message renderer. */
    function Base(): MessageRendererBase {
      match this
      case TextMessage(r) => r.messageRendererBase
      case PaidMessage(r) => r.liveChatTextMessageRenderer.messageRendererBase
      case MembershipItem(r) => r.messageRendererBase
      case PaidSticker(r) => r.messageRendererBase
    }

    /** The message runs: the text message's own, the paid message's embedded
        ones, a membership item's header sub-text, and none for a sticker. */
    function Runs(): (runs: seq<MessageRun>)
      ensures PaidSticker? ==> runs == []
      ensures MembershipItem? && membershipRenderer.headerSubText.None? ==> runs == []
      ensures MembershipItem? && membershipRenderer.headerSubText.Some? ==>
                runs == membershipRenderer.headerSubText.value.runs
      ensures TextMessage? ==> runs == textRenderer.message.runs
      ensures PaidMessage? ==> runs == paidRenderer.liveChatTextMessageRenderer.message.runs
    {
      match this
      case TextMessage(r) => r.message.runs
      case PaidMessage(r) => r.liveChatTextMessageRenderer.message.runs
      case MembershipItem(r) => if r.headerSubText.Some? then r.headerSubText.value.runs else []
      case PaidSticker(_) => []
    }

    function AuthorName(): (name: Option<string>)
      ensures name.Some? <==> Base().authorName.Some?
      ensures name.Some? ==> name.value == Base().authorName.value.simpleText
    {
      match this
      case TextMessage(r) => SimpleText(r.messageRendererBase.authorName)
      case PaidMessage(r) => SimpleText(r.liveChatTextMessageRenderer.messageRendererBase.authorName)
      case MembershipItem(r) => SimpleText(r.messageRendererBase.authorName)
      case PaidSticker(r) => SimpleText(r.messageRendererBase.authorName)
    }

    function Id(): (id: string)
      ensures id == Base().id
    {
      match this
      case TextMessage(r) => r.messageRendererBase.id
      case PaidMessage(r) => r.liveChatTextMessageRenderer.messageRendererBase.id
      case MembershipItem(r) => r.messageRendererBase.id
      case PaidSticker(r) => r.messageRendererBase.id
    }

    function Thumbnails(): (thumbnails: seq<Thumbnail>)
      ensures thumbnails == Base().authorPhoto.thumbnails
    {
      match this
      case TextMessage(r) => r.messageRendererBase.authorPhoto.thumbnails
      case PaidMessage(r) => r.liveChatTextMessageRenderer.messageRendererBase.authorPhoto.thumbnails
      case MembershipItem(r) => r.messageRendererBase.authorPhoto.thumbnails
      case PaidSticker(r) => r.messageRendererBase.authorPhoto.thumbnails
    }

    function ChannelId(): (channelId: string)
      ensures channelId == Base().authorExternalChannelId
    {
      match this
      case TextMessage(r) => r.messageRendererBase.authorExternalChannelId
      case PaidMessage(r) => r.liveChatTextMessageRenderer.messageRendererBase.authorExternalChannelId
      case MembershipItem(r) => r.messageRendererBase.authorExternalChannelId
      case PaidSticker(r) => r.messageRendererBase.authorExternalChannelId
    }

    /** The timestamp in nanoseconds: the microsecond text parsed as an `i64`
        and multiplied by 1000, or None when it does not parse. */
    function TimeStamp(): (nanos: Option<int>)
      ensures nanos.None? <==> IntParse.ParseI64(Base().timestampUsec).None?
      ensures nanos.Some? ==> nanos.value == IntParse.ParseI64(Base().timestampUsec).value * 1000
      ensures nanos.Some? ==> nanos.value % 1000 == 0
    {
      var timestampUsec :=
        match this
        case TextMessage(r) => r.messageRendererBase.timestampUsec
        case PaidMessage(r) => r.liveChatTextMessageRenderer.messageRendererBase.timestampUsec
        case MembershipItem(r) => r.messageRendererBase.timestampUsec
        case PaidSticker(r) => r.messageRendererBase.timestampUsec;
      assert timestampUsec == Base().timestampUsec;
      match IntParse.ParseI64(timestampUsec)
      case None => None
      case Some(usec) => Some(usec * 1000)
    }

    function AuthorBadge(): (badges: Option<seq<AuthorBadge>>)
      ensures badges == Base().authorBadges
    {
      match this
      case TextMessage(r) => r.messageRendererBase.authorBadges
      case PaidMessage(r) => r.liveChatTextMessageRenderer.messageRendererBase.authorBadges
      case MembershipItem(r) => r.messageRendererBase.authorBadges
      case PaidSticker(r) => r.messageRendererBase.authorBadges
    }

    /** The paid part: none for text messages and membership items; a paid
        message's body background colour and no sticker; a sticker's
        background colour and its first image, labelled for accessibility. */
    function Superchat(): (superchat: Option<SuperChat>)
      ensures superchat.None? <==> TextMessage? || MembershipItem?
      ensures PaidMessage? ==>
                superchat == Some(SuperChat(paidRenderer.purchaseAmountText.simpleText,
                                            ColorHex(paidRenderer.bodyBackgroundColor),
                                            None))
      ensures PaidSticker? ==>
                && superchat.Some?
                && superchat.value.amount == stickerRenderer.purchaseAmountText.simpleText
                && superchat.value.color == ColorHex(stickerRenderer.backgroundColor)
                && (superchat.value.sticker.None? <==> stickerRenderer.sticker.thumbnails == [])
                && (superchat.value.sticker.Some? ==>
                      superchat.value.sticker.value ==
                        ImageItem(stickerRenderer.sticker.thumbnails[0].url,
                                  Some(stickerRenderer.sticker.accessibility.accessibilityData.labelText)))
    {
      match this
      case TextMessage(_) => None
      case PaidMessage(r) =>
        Some(SuperChat(r.purchaseAmountText.simpleText, ColorHex(r.bodyBackgroundColor), None))
      case MembershipItem(_) => None
      case PaidSticker(r) =>
        Some(SuperChat(r.purchaseAmountText.simpleText,
                       ColorHex(r.backgroundColor),
                       ParseThumbnailsToImageItem(r.sticker.thumbnails,
                                                  Some(r.sticker.accessibility.accessibilityData.labelText))))
    }
  }

  function SimpleText(name: Option<AuthorName>): Option<string> {
    match name
    case Some(n) => Some(n.simpleText)
    case None => None
  }

  /** The renderers an action carries, in the order they are tried. */
  function Candidates(action: Action): seq<Renderer> {
    match action.addChatItemAction
    case None => []
    case Some(add) =>
      var item := add.item;
      (if item.liveChatTextMessageRenderer.Some? then [TextMessage(item.liveChatTextMessageRenderer.value)] else [])
      + (if item.liveChatPaidMessageRenderer.Some? then [PaidMessage(item.liveChatPaidMessageRenderer.value)] else [])
      + (if item.liveChatMembershipItemRenderer.Some? then [MembershipItem(item.liveChatMembershipItemRenderer.value)] else [])
      + (if item.liveChatPaidStickerRenderer.Some? then [PaidSticker(item.liveChatPaidStickerRenderer.value)] else [])
  }

  /** Picks the renderer of an action: text message, paid message,
      membership item, paid sticker, the first one present. */
  function RendererFromAction(action: Action): (r: Option<Renderer>)
    ensures action.addChatItemAction.None? ==> r.None?
  {
    match action.addChatItemAction
    case None => None
    case Some(add) =>
      var item := add.item;
      if item.liveChatTextMessageRenderer.Some? then Some(TextMessage(item.liveChatTextMessageRenderer.value))
      else if item.liveChatPaidMessageRenderer.Some? then Some(PaidMessage(item.liveChatPaidMessageRenderer.value))
      else if item.liveChatMembershipItemRenderer.Some? then Some(MembershipItem(item.liveChatMembershipItemRenderer.value))
      else if item.liveChatPaidStickerRenderer.Some? then Some(PaidSticker(item.liveChatPaidStickerRenderer.value))
      else None
  }

  /** The chosen renderer is the first of the candidates, and there is none
      exactly when the action carries no recognised renderer. */
  lemma RendererIsFirstCandidate(action: Action)
    ensures RendererFromAction(action).None? <==> Candidates(action) == []
    ensures RendererFromAction(action).Some? ==> RendererFromAction(action).value == Candidates(action)[0]
  {
  }

  // ---------------------------------------------------------------------
  // Badges (process_badge)
  // ---------------------------------------------------------------------

  /** A badge with a custom thumbnail marks a member. */
  predicate HasCustomThumbnail(badge: AuthorBadge) {
    badge.liveChatAuthorBadgeRenderer.customThumbnail.Some?
  }

  /** A badge that sets `is_owner`: no custom thumbnail, and an icon of type
      OWNER, VERIFIED or MODERATOR. */
  predicate IsOwnerIcon(badge: AuthorBadge) {
    var r := badge.liveChatAuthorBadgeRenderer;
    && r.customThumbnail.None?
    && r.icon.Some?
    && r.icon.value.iconType in ["OWNER", "VERIFIED", "MODERATOR"]
  }

  /** A badge that sets `author.badge`: a custom thumbnail with at least one image. */
  predicate SetsAuthorBadge(badge: AuthorBadge) {
    var r := badge.liveChatAuthorBadgeRenderer;
    r.customThumbnail.Some? && r.customThumbnail.value.thumbnails != []
  }

  /** The badge such a badge sets: its first image, with the tooltip as both
      alt text and label. */
  function BadgeOf(badge: AuthorBadge): Badge
    requires SetsAuthorBadge(badge)
  {
    var r := badge.liveChatAuthorBadgeRenderer;
    Badge(ImageItem(r.customThumbnail.value.thumbnails[0].url, Some(r.tooltip)), r.tooltip)
  }

  /** The effect of one badge on the item being built. */
  function ApplyBadge(chatItem: ChatItem, authorBadge: AuthorBadge): ChatItem {
    var badgeRenderer := authorBadge.liveChatAuthorBadgeRenderer;
    var iconType := if badgeRenderer.icon.Some? then Some(badgeRenderer.icon.value.iconType) else None;
    var tooltip := badgeRenderer.tooltip;
    match badgeRenderer.customThumbnail
    case Some(customThumbnail) =>
      var withBadge :=
        match ParseThumbnailsToImageItem(customThumbnail.thumbnails, Some(tooltip))
        case Some(thumbnail) => chatItem.(author := chatItem.author.(badge := Some(Badge(thumbnail, tooltip))))
        case None => chatItem;
      withBadge.(isMembership := true)
    case None =>
      if iconType == Some("OWNER") || iconType == Some("VERIFIED") || iconType == Some("MODERATOR")
      then chatItem.(isOwner := true)
      else chatItem
  }

  /** The badges applied in order. */
  function ApplyBadges(chatItem: ChatItem, badges: seq<AuthorBadge>): ChatItem
    decreases |badges|
  {
    if badges == [] then chatItem else ApplyBadges(ApplyBadge(chatItem, badges[0]), badges[1..])
  }

  /** `process_badge`: walks the renderer's badge list, if it has one, and
      updates the item's flags and author badge. */
  method ProcessBadge(renderer: Renderer, chatItem: ChatItem) returns (result: ChatItem)
    ensures result == ApplyBadges(chatItem, renderer.AuthorBadge().GetOr([]))
  {
    result := chatItem;
    if renderer.AuthorBadge().Some? {
      var authorBadges := renderer.AuthorBadge().value;
      var i := 0;
      while i < |authorBadges|
        invariant 0 <= i <= |authorBadges|
        invariant ApplyBadges(result, authorBadges[i..]) == ApplyBadges(chatItem, authorBadges)
      {
        assert authorBadges[i..][1..] == authorBadges[i + 1..];
        var badgeRenderer := authorBadges[i].liveChatAuthorBadgeRenderer;
        var iconType := if badgeRenderer.icon.Some? then Some(badgeRenderer.icon.value.iconType) else None;
        var tooltip := badgeRenderer.tooltip;
        if badgeRenderer.customThumbnail.Some? {
          var badge := ParseThumbnailsToImageItem(badgeRenderer.customThumbnail.value.thumbnails, Some(tooltip));
          if badge.Some? {
            result := result.(author := result.author.(badge := Some(Badge(badge.value, tooltip))));
          }
          result := result.(isMembership := true);
        } else if iconType == Some("OWNER") || iconType == Some("VERIFIED") || iconType == Some("MODERATOR") {
          result := result.(isOwner := true);
        }
        i := i + 1;
      }
    }
  }

  /** `is_membership` ends true exactly when it started true or some badge
      has a custom thumbnail. */
  lemma {:induction false} ApplyBadgesMembership(chatItem: ChatItem, badges: seq<AuthorBadge>)
    ensures ApplyBadges(chatItem, badges).isMembership <==>
              chatItem.isMembership || exists i :: 0 <= i < |badges| && HasCustomThumbnail(badges[i])
    decreases |badges|
  {
    if badges != [] {
      var rest := badges[1..];
      ApplyBadgesMembership(ApplyBadge(chatItem, badges[0]), rest);
      if exists i :: 0 <= i < |badges| && HasCustomThumbnail(badges[i]) {
        var i :| 0 <= i < |badges| && HasCustomThumbnail(badges[i]);
        if i > 0 { assert HasCustomThumbnail(rest[i - 1]); }
      }
      if exists i :: 0 <= i < |rest| && HasCustomThumbnail(rest[i]) {
        var i :| 0 <= i < |rest| && HasCustomThumbnail(rest[i]);
        assert HasCustomThumbnail(badges[i + 1]);
      }
    }
  }

  /** `is_owner` ends true exactly when it started true or some badge is an
      OWNER, VERIFIED or MODERATOR icon. */
  lemma {:induction false} ApplyBadgesOwner(chatItem: ChatItem, badges: seq<AuthorBadge>)
    ensures ApplyBadges(chatItem, badges).isOwner <==>
              chatItem.isOwner || exists i :: 0 <= i < |badges| && IsOwnerIcon(badges[i])
    decreases |badges|
  {
    if badges != [] {
      var rest := badges[1..];
      ApplyBadgesOwner(ApplyBadge(chatItem, badges[0]), rest);
      if exists i :: 0 <= i < |badges| && IsOwnerIcon(badges[i]) {
        var i :| 0 <= i < |badges| && IsOwnerIcon(badges[i]);
        if i > 0 { assert IsOwnerIcon(rest[i - 1]); }
      }
      if exists i :: 0 <= i < |rest| && IsOwnerIcon(rest[i]) {
        var i :| 0 <= i < |rest| && IsOwnerIcon(rest[i]);
        assert IsOwnerIcon(badges[i + 1]);
      }
    }
  }

  /** `is_verified` and `is_moderator` are never touched. */
  lemma {:induction false} ApplyBadgesOtherFlags(chatItem: ChatItem, badges: seq<AuthorBadge>)
    ensures ApplyBadges(chatItem, badges).isVerified == chatItem.isVerified
    ensures ApplyBadges(chatItem, badges).isModerator == chatItem.isModerator
    decreases |badges|
  {
    if badges != [] {
      ApplyBadgesOtherFlags(ApplyBadge(chatItem, badges[0]), badges[1..]);
    }
  }

  /** Flags are only ever set, never cleared: `is_membership` ends true
      exactly when it started true or some badge has a custom thumbnail,
      `is_owner` when it started true or some badge is an OWNER, VERIFIED or
      MODERATOR icon, and `is_verified` and `is_moderator` never change. */
  lemma ApplyBadgesFlags(chatItem: ChatItem, badges: seq<AuthorBadge>)
    ensures ApplyBadges(chatItem, badges).isMembership <==>
              chatItem.isMembership || exists i :: 0 <= i < |badges| && HasCustomThumbnail(badges[i])
    ensures ApplyBadges(chatItem, badges).isOwner <==>
              chatItem.isOwner || exists i :: 0 <= i < |badges| && IsOwnerIcon(badges[i])
    ensures ApplyBadges(chatItem, badges).isVerified == chatItem.isVerified
    ensures ApplyBadges(chatItem, badges).isModerator == chatItem.isModerator
  {
    ApplyBadgesMembership(chatItem, badges);
    ApplyBadgesOwner(chatItem, badges);
    ApplyBadgesOtherFlags(chatItem, badges);
  }

  /** The author badge after a run of badges, tracking that field alone. */
  function BadgeAfter(badge: Option<Badge>, badges: seq<AuthorBadge>): Option<Badge>
    decreases |badges|
  {
    if badges == [] then badge
    else BadgeAfter(if SetsAuthorBadge(badges[0]) then Some(BadgeOf(badges[0])) else badge, badges[1..])
  }

  lemma {:induction false} ApplyBadgesBadgeAfter(chatItem: ChatItem, badges: seq<AuthorBadge>)
    ensures ApplyBadges(chatItem, badges).author.badge == BadgeAfter(chatItem.author.badge, badges)
    decreases |badges|
  {
    if badges != [] {
      var next := ApplyBadge(chatItem, badges[0]);
      assert next.author.badge ==
        if SetsAuthorBadge(badges[0]) then Some(BadgeOf(badges[0])) else chatItem.author.badge;
      ApplyBadgesBadgeAfter(next, badges[1..]);
    }
  }

  /** Badges that set no author badge leave it as it was. */
  lemma {:induction false} BadgeAfterNoSetter(badge: Option<Badge>, badges: seq<AuthorBadge>)
    requires forall i :: 0 <= i < |badges| ==> !SetsAuthorBadge(badges[i])
    ensures BadgeAfter(badge, badges) == badge
    decreases |badges|
  {
    if badges != [] {
      assert !SetsAuthorBadge(badges[0]);
      var rest := badges[1..];
      assert forall j :: 0 <= j < |rest| ==> !SetsAuthorBadge(rest[j]) by {
        forall j | 0 <= j < |rest| ensures !SetsAuthorBadge(rest[j]) {
          assert rest[j] == badges[j + 1];
        }
      }
      BadgeAfterNoSetter(badge, rest);
    }
  }

  /** The last badge that sets an author badge decides it. */
  lemma {:induction false} BadgeAfterLastSetter(badge: Option<Badge>, badges: seq<AuthorBadge>, i: nat)
    requires i < |badges| && SetsAuthorBadge(badges[i])
    requires forall j :: i < j < |badges| ==> !SetsAuthorBadge(badges[j])
    ensures BadgeAfter(badge, badges) == Some(BadgeOf(badges[i]))
    decreases |badges|
  {
    var next := if SetsAuthorBadge(badges[0]) then Some(BadgeOf(badges[0])) else badge;
    var rest := badges[1..];
    assert BadgeAfter(badge, badges) == BadgeAfter(next, rest);
    if i == 0 {
      forall j | 0 <= j < |rest| ensures !SetsAuthorBadge(rest[j]) {
        assert rest[j] == badges[j + 1];
      }
      BadgeAfterNoSetter(next, rest);
    } else {
      assert rest[i - 1] == badges[i];
      forall j | i - 1 < j < |rest| ensures !SetsAuthorBadge(rest[j]) {
        assert rest[j] == badges[j + 1];
      }
      BadgeAfterLastSetter(next, rest, i - 1);
    }
  }

  /** The author badge is the one set by the last badge that has a custom
      thumbnail with an image; with no such badge it is left as it was. */
  lemma ApplyBadgesAuthorBadge(chatItem: ChatItem, badges: seq<AuthorBadge>)
    ensures (forall i :: 0 <= i < |badges| ==> !SetsAuthorBadge(badges[i])) ==>
              ApplyBadges(chatItem, badges).author.badge == chatItem.author.badge
    ensures forall i :: 0 <= i < |badges| && SetsAuthorBadge(badges[i])
                        && (forall j :: i < j < |badges| ==> !SetsAuthorBadge(badges[j])) ==>
              ApplyBadges(chatItem, badges).author.badge == Some(BadgeOf(badges[i]))
  {
    ApplyBadgesBadgeAfter(chatItem, badges);
    if forall i :: 0 <= i < |badges| ==> !SetsAuthorBadge(badges[i]) {
      BadgeAfterNoSetter(chatItem.author.badge, badges);
    }
    forall i | 0 <= i < |badges| && SetsAuthorBadge(badges[i])
               && (forall j :: i < j < |badges| ==> !SetsAuthorBadge(badges[j]))
      ensures ApplyBadges(chatItem, badges).author.badge == Some(BadgeOf(badges[i]))
    {
      BadgeAfterLastSetter(chatItem.author.badge, badges, i);
    }
  }

  /** Badges touch nothing but the two flags and the author badge. */
  lemma {:induction false} ApplyBadgesFrame(chatItem: ChatItem, badges: seq<AuthorBadge>)
    ensures var r := ApplyBadges(chatItem, badges);
      && r.id == chatItem.id
      && r.message == chatItem.message
      && r.superchat == chatItem.superchat
      && r.timestamp == chatItem.timestamp
      && r.author.name == chatItem.author.name
      && r.author.thumbnail == chatItem.author.thumbnail
      && r.author.channelId == chatItem.author.channelId
    decreases |badges|
  {
    if badges != [] {
      ApplyBadgesFrame(ApplyBadge(chatItem, badges[0]), badges[1..]);
    }
  }

  // ---------------------------------------------------------------------
  // The chat action mapper (parse_action_to_chat_item, parse_chat_data)
  // ---------------------------------------------------------------------

  /** One action as a chat item, or None when it carries no recognised renderer. */
  function ParseActionToChatItem(action: Action): (r: Option<ChatItem>)
    ensures r.None? <==> RendererFromAction(action).None?
  {
    match RendererFromAction(action)
    case None => None
    case Some(renderer) =>
      var authorNameText := renderer.AuthorName();
      var chatItem := ChatItem(
        renderer.Id(),
        Author(authorNameText,
               ParseThumbnailsToImageItem(renderer.Thumbnails(), authorNameText),
               renderer.ChannelId(),
               None),
        ParseMessage(renderer.Runs()),
        renderer.Superchat(),
        false, false, false, false,
        renderer.TimeStamp());
      Some(ApplyBadges(chatItem, renderer.AuthorBadge().GetOr([])))
  }

  /** What a mapped item holds: the renderer's id, author name and channel
      id; the first author photo with the author name as alt text; the
      decoded runs; the renderer's paid part and timestamp; role flags
      derived from the badges alone, with `is_verified` and `is_moderator`
      always false; and the author badge set by the last badge whose custom
      thumbnail has an image, or none when no badge sets one. */
  lemma MappedChatItem(action: Action)
    requires RendererFromAction(action).Some?
    ensures var renderer := RendererFromAction(action).value;
      var badges := renderer.AuthorBadge().GetOr([]);
      var item := ParseActionToChatItem(action).value;
      && item.id == renderer.Id()
      && item.author.name == renderer.AuthorName()
      && item.author.channelId == renderer.ChannelId()
      && item.author.thumbnail == ParseThumbnailsToImageItem(renderer.Thumbnails(), renderer.AuthorName())
      && item.message == ParseMessage(renderer.Runs())
      && item.superchat == renderer.Superchat()
      && item.timestamp == renderer.TimeStamp()
      && !item.isVerified && !item.isModerator
      && (item.isMembership <==> exists i :: 0 <= i < |badges| && HasCustomThumbnail(badges[i]))
      && (item.isOwner <==> exists i :: 0 <= i < |badges| && IsOwnerIcon(badges[i]))
      && ((forall i :: 0 <= i < |badges| ==> !SetsAuthorBadge(badges[i])) ==> item.author.badge.None?)
      && (forall i ::
            (0 <= i < |badges| && SetsAuthorBadge(badges[i])
             && (forall j :: i < j < |badges| ==> !SetsAuthorBadge(badges[j]))) ==>
            item.author.badge == Some(BadgeOf(badges[i])))
  {
    var renderer := RendererFromAction(action).value;
    var authorNameText := renderer.AuthorName();
    var chatItem := ChatItem(
      renderer.Id(),
      Author(authorNameText,
             ParseThumbnailsToImageItem(renderer.Thumbnails(), authorNameText),
             renderer.ChannelId(),
             None),
      ParseMessage(renderer.Runs()),
      renderer.Superchat(),
      false, false, false, false,
      renderer.TimeStamp());
    var badges := renderer.AuthorBadge().GetOr([]);
    ApplyBadgesFlags(chatItem, badges);
    ApplyBadgesAuthorBadge(chatItem, badges);
    ApplyBadgesFrame(chatItem, badges);
  }

  /** `filter_map(f)`: what `f` gives for each element, in order, with the
      Nones dropped. */
  function FilterMap<A, B>(xs: seq<A>, f: A -> Option<B>): (ys: seq<B>)
    ensures |ys| <= |xs|
    ensures (forall i :: 0 <= i < |xs| ==> f(xs[i]).Some?) ==> |ys| == |xs|
    ensures forall y :: y in ys ==> exists x :: x in xs && f(x) == Some(y)
  {
    if xs == [] then []
    else
      var rest := FilterMap(xs[1..], f);
      assert forall x :: x in xs[1..] ==> x in xs;
      match f(xs[0])
      case None => rest
      case Some(y) => [y] + rest
  }

  /** The indices, from `from` on, of the elements `f` keeps. */
  function KeptIndices<A, B>(xs: seq<A>, f: A -> Option<B>, from: nat): seq<nat>
    requires from <= |xs|
    decreases |xs| - from
  {
    if from == |xs| then []
    else if f(xs[from]).Some? then [from] + KeptIndices(xs, f, from + 1)
    else KeptIndices(xs, f, from + 1)
  }

  /** The kept indices lie in `from..|xs|`, name elements `f` keeps, and increase. */
  lemma {:induction false} KeptIndicesOrdered<A, B>(xs: seq<A>, f: A -> Option<B>, from: nat)
    requires from <= |xs|
    ensures forall k :: 0 <= k < |KeptIndices(xs, f, from)| ==>
              from <= KeptIndices(xs, f, from)[k] < |xs| && f(xs[KeptIndices(xs, f, from)[k]]).Some?
    ensures forall k, l :: 0 <= k < l < |KeptIndices(xs, f, from)| ==>
              KeptIndices(xs, f, from)[k] < KeptIndices(xs, f, from)[l]
    decreases |xs| - from
  {
    if from < |xs| {
      KeptIndicesOrdered(xs, f, from + 1);
    }
  }

  /** Every index from `from` on whose element `f` keeps is a kept index. */
  lemma {:induction false} KeptIndicesComplete<A, B>(xs: seq<A>, f: A -> Option<B>, from: nat)
    requires from <= |xs|
    ensures forall j :: from <= j < |xs| && f(xs[j]).Some? ==> j in KeptIndices(xs, f, from)
    decreases |xs| - from
  {
    if from < |xs| {
      KeptIndicesComplete(xs, f, from + 1);
    }
  }

  /** `filter_map` gives one output per kept index. */
  lemma {:induction false} FilterMapKeptLength<A, B>(xs: seq<A>, f: A -> Option<B>, from: nat)
    requires from <= |xs|
    ensures |FilterMap(xs[from..], f)| == |KeptIndices(xs, f, from)|
    decreases |xs| - from
  {
    if from < |xs| {
      FilterMapKeptLength(xs, f, from + 1);
      assert xs[from..][1..] == xs[from + 1..];
      assert xs[from..][0] == xs[from];
    }
  }

  /** Output k of `filter_map` is the image of input KeptIndices[k]. */
  lemma {:induction false} FilterMapKeptAt<A, B>(xs: seq<A>, f: A -> Option<B>, from: nat, k: nat)
    requires from <= |xs|
    requires k < |KeptIndices(xs, f, from)|
    ensures k < |FilterMap(xs[from..], f)|
    ensures KeptIndices(xs, f, from)[k] < |xs|
    ensures f(xs[KeptIndices(xs, f, from)[k]]) == Some(FilterMap(xs[from..], f)[k])
    decreases |xs| - from
  {
    FilterMapKeptLength(xs, f, from);
    var ys, rest := FilterMap(xs[from..], f), FilterMap(xs[from + 1..], f);
    var kept, keptRest := KeptIndices(xs, f, from), KeptIndices(xs, f, from + 1);
    assert xs[from..][1..] == xs[from + 1..];
    assert xs[from..][0] == xs[from];
    if f(xs[from]).Some? {
      assert ys == [f(xs[from]).value] + rest;
      assert kept == [from] + keptRest;
      if k > 0 {
        FilterMapKeptAt(xs, f, from + 1, k - 1);
        assert kept[k] == keptRest[k - 1] && ys[k] == rest[k - 1];
      }
    } else {
      assert ys == rest;
      assert kept == keptRest;
      FilterMapKeptAt(xs, f, from + 1, k);
    }
  }

  /** Every output of `filter_map` is the image of the input at its kept index. */
  lemma FilterMapKept<A, B>(xs: seq<A>, f: A -> Option<B>, from: nat)
    requires from <= |xs|
    ensures |FilterMap(xs[from..], f)| == |KeptIndices(xs, f, from)|
    ensures forall k :: 0 <= k < |KeptIndices(xs, f, from)| ==>
              KeptIndices(xs, f, from)[k] < |xs| &&
              f(xs[KeptIndices(xs, f, from)[k]]) == Some(FilterMap(xs[from..], f)[k])
  {
    FilterMapKeptLength(xs, f, from);
    forall k | 0 <= k < |KeptIndices(xs, f, from)|
      ensures KeptIndices(xs, f, from)[k] < |xs|
      ensures f(xs[KeptIndices(xs, f, from)[k]]) == Some(FilterMap(xs[from..], f)[k])
    {
      FilterMapKeptAt(xs, f, from, k);
    }
  }

  /** `filter_map` keeps order: output k comes from input KeptIndices[k], the
      indices increase, and every input that `f` maps is among them. */
  lemma FilterMapInOrder<A, B>(xs: seq<A>, f: A -> Option<B>, from: nat)
    requires from <= |xs|
    ensures var ys, kept := FilterMap(xs[from..], f), KeptIndices(xs, f, from);
      && |ys| == |kept|
      && (forall k :: 0 <= k < |kept| ==> from <= kept[k] < |xs| && f(xs[kept[k]]) == Some(ys[k]))
      && (forall k, l :: 0 <= k < l < |kept| ==> kept[k] < kept[l])
      && (forall j :: from <= j < |xs| && f(xs[j]).Some? ==> j in kept)
  {
    KeptIndicesOrdered(xs, f, from);
    KeptIndicesComplete(xs, f, from);
    FilterMapKept(xs, f, from);
  }

  /** The next continuation: from the first entry only, the invalidation
      token if there is one, else the timed token, else the empty string
      (also the answer when there are no entries). */
  function NextContinuation(continuations: seq<Continuation>): (c: string)
    ensures continuations == [] ==> c == ""
    ensures continuations != [] ==>
              var first := continuations[0];
              && (first.invalidationContinuationData.Some? ==>
                    c == first.invalidationContinuationData.value.continuation)
              && (first.invalidationContinuationData.None? && first.timedContinuationData.Some? ==>
                    c == first.timedContinuationData.value.continuation)
              && (first.invalidationContinuationData.None? && first.timedContinuationData.None? ==>
                    c == "")
  {
    if continuations == [] then ""
    else
      var first := continuations[0];
      match first.invalidationContinuationData
      case Some(invalidation) => invalidation.continuation
      case None =>
        match first.timedContinuationData
        case Some(timed) => timed.continuation
        case None => ""
  }

  /** Only the first continuation entry is ever looked at. */
  lemma NextContinuationFirstOnly(continuations: seq<Continuation>, more: seq<Continuation>)
    requires continuations != []
    ensures NextContinuation(continuations + more) == NextContinuation(continuations[..1])
  {
  }

  /** A response as chat items and the next continuation. */
  function ParseChatData(data: GetLiveChatResponse): (r: (seq<ChatItem>, string))
    ensures var liveChat := data.continuationContents.liveChatContinuation;
      && (liveChat.actions.None? ==> r.0 == [])
      && (liveChat.actions.Some? ==> r.0 == FilterMap(liveChat.actions.value, ParseActionToChatItem))
      && |r.0| <= |liveChat.actions.GetOr([])|
      && r.1 == NextContinuation(liveChat.continuations)
  {
    var liveChat := data.continuationContents.liveChatContinuation;
    var chatItems :=
      if liveChat.actions.Some? && liveChat.actions.value != [] then FilterMap(liveChat.actions.value, ParseActionToChatItem)
      else [];
    (chatItems, NextContinuation(liveChat.continuations))
  }

  /** Every item of a parsed response comes from one of its actions, in the
      actions' order, and every action that maps to an item contributes it. */
  lemma ParseChatDataInOrder(data: GetLiveChatResponse)
    requires data.continuationContents.liveChatContinuation.actions.Some?
    ensures var actions := data.continuationContents.liveChatContinuation.actions.value;
      var items, kept := ParseChatData(data).0, KeptIndices(actions, ParseActionToChatItem, 0);
      && |items| == |kept|
      && (forall k :: 0 <= k < |kept| ==>
            kept[k] < |actions| && ParseActionToChatItem(actions[kept[k]]) == Some(items[k]))
      && (forall k, l :: 0 <= k < l < |kept| ==> kept[k] < kept[l])
      && (forall j :: 0 <= j < |actions| && ParseActionToChatItem(actions[j]).Some? ==> j in kept)
  {
    var actions := data.continuationContents.liveChatContinuation.actions.value;
    FilterMapInOrder(actions, ParseActionToChatItem, 0);
    assert actions[0..] == actions;
  }

  // ---------------------------------------------------------------------
  // Worked examples
  // ---------------------------------------------------------------------

  /** A watch page with all four fields and no replay marker. */
  lemma BootstrapExample()
    ensures var find: Search := (p: Pattern, d: string) =>
              match p
              case CanonicalLink => Some("XYZ")
              case IsReplay => None
              case ApiKey => Some("k1")
              case ClientVersion => Some("2.1")
              case InitialContinuation => Some("c1");
      GetOptionsFromLivePage("page", find) == Success((RequestOptions("k1", "2.1", "c1"), "XYZ"))
  {
  }

  /** A plain text message from Alice. */
  lemma TextMessageExample()
    ensures var base := MessageRendererBase(Some(AuthorName("Alice")), AuthorPhoto([]), None, "m1", "42", "UC1");
      var action := Action(Some(AddChatItemAction(ActionItem(
        Some(LiveChatTextMessageRenderer(base, Message([MessageText("hi")]))), None, None, None))));
      ParseActionToChatItem(action) ==
        Some(ChatItem("m1", Author(Some("Alice"), None, "UC1", None), [Text("hi")], None,
                      false, false, false, false, Some(42000)))
  {
    var base := MessageRendererBase(Some(AuthorName("Alice")), AuthorPhoto([]), None, "m1", "42", "UC1");
    var renderer := LiveChatTextMessageRenderer(base, Message([MessageText("hi")]));
    var action := Action(Some(AddChatItemAction(ActionItem(Some(renderer), None, None, None))));
    assert RendererFromAction(action) == Some(TextMessage(renderer));
    assert IntParse.DigitsValue("42") == 42 by {
      assert "42"[..1] == "4";
      assert IntParse.DigitsValue("4") == 4;
    }
    assert TextMessage(renderer).TimeStamp() == Some(42000);
    assert ParseMessage([MessageText("hi")]) == [Text("hi")];
  }
}
