# youtube_chat in Dafny

A model of the core of `youtube_chat`, a Rust client that reads the live chat
of a YouTube stream. The model follows the library's two steps.

- **Bootstrap.** The client fetches the watch page and takes four values out
  of it with regular expressions: the live id (from the canonical link), the
  API key, the client version and the first continuation token. A page with
  the replay marker belongs to a finished stream and is refused.
- **Polling.** The client posts the session options to the `get_live_chat`
  endpoint. It turns the decoded response into a list of chat items and the
  continuation for the next request.

The modules follow the source files:

| module | file | contents |
|---|---|---|
| `Wrappers` | — | `Option` and `Result` |
| `Errors` | — | the error cases the library reports: the four messages it builds with `anyhow!`, plus the URL-parse and transport errors it passes on with `?` |
| `Request` | `youtube_chat/src/request.rs` | `RequestOptions` |
| `Item` | `youtube_chat/src/item.rs` | the public chat-item types |
| `YoutubeTypes` | `youtube_chat/src/youtube_types.rs` | the decoded response; `isize` is the newtype `Isize` over the 64-bit range |
| `IntParse` | — | Rust's `str::parse::<i64>` written out: an optional sign, at least one ASCII digit, and a range check |
| `Parser` | `youtube_chat/src/parser.rs` | bootstrap, per-renderer accessors, badges, colours, messages, the action mapper |
| `LiveChat` | `youtube_chat/src/live_chat.rs`, `request.rs` | the builder, then the client as a class with `start`, `execute` and `stop` |

How the model treats what it cannot contain:

- **Regular expressions.** `GetOptionsFromLivePage` takes a search function,
  `find: (Pattern, string) -> Option<string>`. That function stands for the
  `regex` crate: it gives the first capture group of a pattern in the page,
  or `None`. `Pattern.Regex()` keeps the five pattern strings of the source.
- **Network fetches.** These are inputs. `LiveChatClient.Start` receives
  what `fetch_live_page` gives for the client's URL. `LiveChatClient.Execute`
  receives what `fetch_chat` gives for the current options.
  `LiveChat.FetchChat` and `LiveChat.FetchLivePage` show how those outcomes
  come from the transport result and the parser.
- **Callbacks.** The four builder callbacks (`on_start`, `on_chat`,
  `on_error`, `on_end`) become a ghost log of `Event`s on the client.
- **Colours.** `convert_color_to_hex6` writes the first four bytes of
  `isize::to_ne_bytes`. The model fixes a 64-bit little-endian target, so
  the colour string holds the low 32 bits, least significant byte first:
  `0x00FF00` becomes `#00FF0000`. `ColorHexRoundTrip` proves that the string
  determines exactly `n mod 2^32`.

What the code does with errors and badges:

- A missing API key reports `FinishedLive(liveId)`, the same error as a
  replay page ("{live_id} is finished live.", youtube_chat/src/parser.rs:37).
- A missing client version or a missing continuation reports
  `ClientVersionNotFound` ("Client Version was not found.",
  youtube_chat/src/parser.rs:46 and 55).
- The `OWNER`, `VERIFIED` and `MODERATOR` badge icons all set `is_owner`
  (youtube_chat/src/parser.rs:319-320). Nothing sets `is_verified` or
  `is_moderator`.

## Model

| member | source | states |
|---|---|---|
| Parser.GetOptionsFromLivePage | youtube_chat/src/parser.rs:14-66 | no canonical link gives LiveStreamNotFound; a replay marker gives FinishedLive with the found live id; success holds exactly when the link and all three fields are found and the marker is absent, and then carries the three captured values and the live id |
| Parser.BootstrapErrors | youtube_chat/src/parser.rs:31-56 | with the live id found and no replay marker, the first missing field decides the error: the API key gives FinishedLive(liveId); the client version or the continuation gives ClientVersionNotFound |
| Parser.ReplayCheckPrecedesFieldSearches | youtube_chat/src/parser.rs:14-29 | when the live id is missing or the replay marker matches, the result fails and does not depend on the other three searches |
| Parser.BootstrapExample | youtube_chat/src/parser.rs:14-66 | a page whose searches find all four fields and no marker gives those options and that live id |
| Parser.ParseThumbnailsToImageItem | youtube_chat/src/parser.rs:389-398 | None exactly for an empty list; otherwise the first thumbnail's URL with the given alt text |
| Parser.ConvertColorToHex6 | youtube_chat/src/parser.rs:400-412 | the loop builds ColorHex: "#" and two upper-case hex digits for each of the first four native-endian bytes |
| Parser.ColorHexShape | youtube_chat/src/parser.rs:400-412 | the colour string is nine characters: "#" and then eight hex digits |
| Parser.ColorHexRoundTrip | youtube_chat/src/parser.rs:400-412 | reading the eight digits back as little-endian bytes gives the colour number mod 2^32 |
| Parser.ColorHexEqualIff | youtube_chat/src/parser.rs:400-412 | two colours give the same string if and only if they agree mod 2^32 |
| Parser.ColorHexGreen | youtube_chat/src/parser.rs:400-412 | 0x00FF00 becomes "#00FF0000" |
| Parser.ParseRun | youtube_chat/src/parser.rs:416-443 | a text run becomes Text; an emoji run takes its first thumbnail as the image, with the first shortcut as alt text; its text is the shortcut when custom and the emoji id otherwise; the custom flag is kept |
| Parser.ParseMessage | youtube_chat/src/parser.rs:414-446 | one item per run, in order, each the run's ParseRun |
| Parser.ParseMessageAppend | youtube_chat/src/parser.rs:414-446 | the parse of a concatenation is the concatenation of the parses |
| Parser.Renderer.Runs | youtube_chat/src/parser.rs:150-165 | text and paid messages give their message runs; a membership item gives its header runs or none; a sticker gives none |
| Parser.Renderer.AuthorName | youtube_chat/src/parser.rs:167-191 | the author's simple text, present exactly when the renderer has an author name |
| Parser.Renderer.Id | youtube_chat/src/parser.rs:193-210 | the id of the renderer's shared message base, for all four kinds |
| Parser.Renderer.Thumbnails | youtube_chat/src/parser.rs:212-236 | the author photo's thumbnails from the shared base, for all four kinds |
| Parser.Renderer.ChannelId | youtube_chat/src/parser.rs:238-258 | the author's external channel id from the shared base, for all four kinds |
| Parser.Renderer.TimeStamp | youtube_chat/src/parser.rs:260-278 | None exactly when the microsecond text is not an i64; otherwise that value times 1000 nanoseconds |
| Parser.Renderer.AuthorBadge | youtube_chat/src/parser.rs:280-297 | the author badges of the shared base, for all four kinds |
| Parser.Renderer.Superchat | youtube_chat/src/parser.rs:326-351 | None exactly for text and membership messages; a paid message gives its amount, body colour and no sticker; a sticker gives its amount, background colour and first sticker image |
| Parser.RendererFromAction | youtube_chat/src/parser.rs:373-387 | an action without an add-chat-item action gives no renderer |
| Parser.RendererIsFirstCandidate | youtube_chat/src/parser.rs:373-387 | the renderer is the first one present in the order text, paid, membership, sticker; None only when none is present |
| Parser.ProcessBadge | youtube_chat/src/parser.rs:299-324 | the loop over the author badges computes ApplyBadges of the item and the renderer's badges (none when absent) |
| Parser.ApplyBadgesFlags | youtube_chat/src/parser.rs:305-320 | the membership flag ends true if and only if it started true or some badge has a custom thumbnail; the owner flag ends true if and only if it started true or some badge without a custom thumbnail has an OWNER, VERIFIED or MODERATOR icon; the verified and moderator flags are untouched |
| Parser.ApplyBadgesAuthorBadge | youtube_chat/src/parser.rs:305-318 | the author badge comes from the last badge whose custom thumbnail has an image, with the tooltip as its alt text and label; with no such badge, it is unchanged |
| Parser.ApplyBadgesFrame | youtube_chat/src/parser.rs:299-324 | badges leave the id, message, paid part, timestamp and author name, photo and channel unchanged |
| Parser.ParseActionToChatItem | youtube_chat/src/parser.rs:112-141 | an action gives an item exactly when it holds a recognised renderer |
| Parser.MappedChatItem | youtube_chat/src/parser.rs:112-141 | the item's fields are the renderer's id, name, channel, first photo (with the name as alt), parsed runs, paid part and timestamp; its membership and owner flags come from the badges alone; its author badge is the one the last image-carrying custom-thumbnail badge sets, or none; it is never verified or a moderator |
| Parser.TextMessageExample | youtube_chat/src/parser.rs:112-141 | a one-run text message from "Alice" at 42 microseconds maps to the expected chat item |
| Parser.FilterMap | youtube_chat/src/parser.rs:77-83 | the output is no longer than the input; it is the same length when every element maps; every output is the image of some input |
| Parser.FilterMapInOrder | youtube_chat/src/parser.rs:77-83 | output k is the image of input KeptIndices[k]; those indices increase; every input that maps is among them |
| Parser.NextContinuation | youtube_chat/src/parser.rs:87-108 | from the first entry only: its invalidation token, else its timed token, else "" (also "" with no entries) |
| Parser.NextContinuationFirstOnly | youtube_chat/src/parser.rs:87-92 | entries after the first never change the continuation |
| Parser.ParseChatData | youtube_chat/src/parser.rs:68-110 | the items are the actions' filter-map through ParseActionToChatItem (none without actions), no more items than actions; the continuation is NextContinuation of the entries |
| Parser.ParseChatDataInOrder | youtube_chat/src/parser.rs:68-86 | every item comes from an action, in the actions' order, and every action that maps contributes its item |
| IntParse.ParseI64 | youtube_chat/src/parser.rs:277 | a result is in the i64 range and comes from an optional sign followed by one or more ASCII digits; its value is those digits' decimal value, negated after a minus sign |
| IntParse.ParseShowRoundTrip | youtube_chat/src/parser.rs:277 | every i64 written in decimal parses back to itself |
| IntParse.ParseI64Accepts | youtube_chat/src/parser.rs:277 | an optional sign followed by one or more ASCII digits parses to its signed decimal value whenever that value is in the i64 range |
| IntParse.AcceptsNonCanonical | youtube_chat/src/parser.rs:277 | "+7" and "007" parse to 7, and "-0" parses to 0 |
| IntParse.RejectsEmptyAndBareSign | youtube_chat/src/parser.rs:277 | "", "+", "-", " 1" and "1.5" do not parse |
| LiveChat.FetchChat | youtube_chat/src/request.rs:16-33 | a send or JSON-decode error is passed on; a decoded response gives ParseChatData of it |
| LiveChat.FetchLivePage | youtube_chat/src/request.rs:35-39 | a transport error is passed on; a fetched page gives the bootstrap result of that page |
| LiveChat.WatchUrl | youtube_chat/src/live_chat.rs:281-289 | the watch prefix followed by exactly the video id |
| LiveChat.ChannelLiveUrl | youtube_chat/src/live_chat.rs:305-313 | the channel prefix, exactly the channel id, then "/live" |
| LiveChat.WatchUrlInjective | youtube_chat/src/live_chat.rs:281-289 | different video ids give different URLs |
| LiveChat.ChannelLiveUrlInjective | youtube_chat/src/live_chat.rs:305-313 | different channel ids give different URLs |
| LiveChat.WatchAndChannelUrlsDiffer | youtube_chat/src/live_chat.rs:281-313 | a video URL is never a channel URL |
| LiveChat.LiveChatClientBuilder.New | youtube_chat/src/live_chat.rs:176-186 | a builder with no URL chosen |
| LiveChat.LiveChatClientBuilder.LiveId | youtube_chat/src/live_chat.rs:281-289 | the URL becomes the video's watch URL |
| LiveChat.LiveChatClientBuilder.ChannelId | youtube_chat/src/live_chat.rs:305-313 | the URL becomes the channel's live URL |
| LiveChat.LiveChatClientBuilder.Url | youtube_chat/src/live_chat.rs:291-303 | succeeds exactly when the text parses as a URL, and then keeps it unchanged; otherwise reports a URL error |
| LiveChat.BuilderLiveIdExample | youtube_chat/src/live_chat.rs:324-330 | the builder test's video id gives the watch URL the test expects |
| LiveChat.BuilderChannelIdExample | youtube_chat/src/live_chat.rs:332-338 | the builder test's channel id gives the live URL the test expects |
| LiveChat.ChatEvents | youtube_chat/src/live_chat.rs:36-38 | one on-chat event per item, in order |
| LiveChat.ChatEventsSnoc | youtube_chat/src/live_chat.rs:36-38 | reporting one more item appends exactly one on-chat event |
| LiveChat.LiveChatClient.Build | youtube_chat_macro/src/lib.rs:97-108 | the client keeps the builder's URL, has no options and has reported nothing yet |
| LiveChat.LiveChatClient.Start | youtube_chat/src/live_chat.rs:54-59 | on a successful page fetch, stores the options and reports the live id; on failure, returns the error and changes nothing |
| LiveChat.LiveChatClient.Execute | youtube_chat/src/live_chat.rs:32-52 | without options, reports not-ready; a failed fetch is reported and keeps the options; a successful fetch reports every item in order and replaces only the continuation |
| LiveChat.LiveChatClient.Stop | youtube_chat/src/live_chat.rs:61-65 | clears the options, reports the end, and succeeds |

## Left out

- HTTP, JSON decoding and the `GetLiveChatBody` request body. The fetches are inputs of Start and Execute, and FetchChat and FetchLivePage take the transport's outcome as a value.
- The regex engine. The search is the function parameter `find`; the pattern strings are kept only as data in `Pattern.Regex()`.
- Parser.Renderer.TimeStamp: does not model the i64 overflow of the multiplication by 1000, and gives nanoseconds as an integer in place of a `chrono` date-time.
- Parser.ConvertColorToHex6: fixes `to_ne_bytes` to a 64-bit little-endian target; a big-endian or 32-bit target is not modelled.
- LiveChat.LiveChatClientBuilder.Url: `Url::parse` is the predicate parameter `parses`, because the URL grammar is not part of this model.
- The callback setters (`on_start`, `on_chat`, `on_error`, `on_end`) and the builder's type-state generics. Callbacks are recorded as the ghost event log, and the "URL chosen" state is the `liveUrl` option with its preconditions.
- The async runtime. Each method runs to completion, with no interleaving.
- The `gen_builder!` procedural macro. Only the `build` it generates is modelled, as the constructor `LiveChatClient.Build`.
- The older copy of the library under `src/`. Only `youtube_chat/src` is modelled.
- Decoded fields the parser never reads: widths and heights, colours other than the body and background colour, `variant_ids`, and the membership renderer's own `author_badges` vector. The parser reads the membership renderer's badges through its flattened message base, and the model does the same.
- The JSON decoding of a membership renderer's badges. With `serde(flatten)`, a key that names an outer field goes to that field, so `"authorBadges"` fills the outer `author_badges` (youtube_chat/src/youtube_types.rs:294-295) and the base's `author_badges` is `None`. `process_badge` reads only the base's badges (youtube_chat/src/parser.rs:290-291), so a decoded membership item never has its badges applied. Decoding is outside this model: the decoded base is an input, so the model also covers a base whose badges are present.
- LiveChat.FetchChat: the body read at youtube_chat/src/request.rs:30 is `unwrap`ped, so a failure there panics and ends the polling task without any `on_error` call. The model treats that failure like any other transport error: a `Failure` that `LiveChatClient.Execute` reports. Only send and JSON-decode errors are passed on by the source (request.rs:29 and 31).
- The error text of `anyhow` chains. The model keeps the error kind and its parameter.
