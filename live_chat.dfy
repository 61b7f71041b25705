/** The client that drives the parser (youtube_chat/src/live_chat.rs): a
    builder that fixes the watch URL, and a client whose only mutable state is
    the session options, moved between "not started" and "started" by
    `Start`, `Execute` and `Stop`. The four callbacks are recorded as events
    in a ghost log; the two network fetches are function-valued inputs. */
module LiveChat {
  import opened Wrappers
  import opened Errors
  import opened Item
  import opened YoutubeTypes
  import opened Request
  import Parser

  // ---------------------------------------------------------------------
  // The network, as inputs (youtube_chat/src/request.rs)
  // ---------------------------------------------------------------------

  /** `fetch_chat`: given the transport's outcome for the request (the decoded
      response, or a send or decode error), the parsed items and next
      continuation. */
  function FetchChat(response: Result<GetLiveChatResponse, Error>): (r: Result<(seq<ChatItem>, string), Error>)
    ensures r.Success? <==> response.Success?
    ensures r.Failure? ==> r.error == response.error
    ensures r.Success? ==> r.value == Parser.ParseChatData(response.value)
  {
    match response
    case Success(json) => Success(Parser.ParseChatData(json))
    case Failure(e) => Failure(e)
  }

  /** `fetch_live_page`: given the transport's outcome for the page request,
      the bootstrap result. */
  function FetchLivePage(page: Result<string, Error>, find: Parser.Search): (r: Result<(RequestOptions, string), Error>)
    ensures page.Failure? ==> r == Failure(page.error)
    ensures page.Success? ==> r == Parser.GetOptionsFromLivePage(page.value, find)
  {
    match page
    case Success(body) => Parser.GetOptionsFromLivePage(body, find)
    case Failure(e) => Failure(e)
  }

  // ---------------------------------------------------------------------
  // Builder
  // ---------------------------------------------------------------------

  const WatchPrefix: string := "https://www.youtube.com/watch?v="
  const ChannelPrefix: string := "https://www.youtube.com/channel/"
  const LiveSuffix: string := "/live"

  /** The watch URL for a video id. */
  function WatchUrl(liveId: string): (url: string)
    ensures |url| == |WatchPrefix| + |liveId|
    ensures url[..|WatchPrefix|] == WatchPrefix && url[|WatchPrefix|..] == liveId
  {
    WatchPrefix + liveId
  }

  /** The live URL for a channel id. */
  function ChannelLiveUrl(channelId: string): (url: string)
    ensures |url| == |ChannelPrefix| + |channelId| + |LiveSuffix|
    ensures url[..|ChannelPrefix|] == ChannelPrefix
    ensures url[|ChannelPrefix|..|url| - |LiveSuffix|] == channelId
    ensures url[|url| - |LiveSuffix|..] == LiveSuffix
  {
    ChannelPrefix + channelId + LiveSuffix
  }

  /** Different video ids give different watch URLs. */
  lemma WatchUrlInjective(a: string, b: string)
    requires WatchUrl(a) == WatchUrl(b)
    ensures a == b
  {
  }

  /** Different channel ids give different live URLs. */
  lemma ChannelLiveUrlInjective(a: string, b: string)
    requires ChannelLiveUrl(a) == ChannelLiveUrl(b)
    ensures a == b
  {
  }

  /** A video-id URL and a channel-id URL are never the same. */
  lemma WatchAndChannelUrlsDiffer(liveId: string, channelId: string)
    ensures WatchUrl(liveId) != ChannelLiveUrl(channelId)
  {
  }

  /** The builder state that matters: the watch URL, once one is chosen
      (the Rust builder tracks "chosen" in its type). The callbacks it also
      collects are the ghost event log of the client. */
  datatype LiveChatClientBuilder = LiveChatClientBuilder(liveUrl: Option<string>)
  {
    /** `LiveChatClientBuilder::new`: no URL yet. */
    static function New(): (builder: LiveChatClientBuilder)
      ensures builder.liveUrl.None?
    {
      LiveChatClientBuilder(None)
    }

    /** `live_id`: the watch URL of a video. */
    function LiveId(liveId: string): (builder: LiveChatClientBuilder)
      requires liveUrl.None?
      ensures builder.liveUrl == Some(WatchUrl(liveId))
    {
      LiveChatClientBuilder(Some(WatchPrefix + liveId))
    }

    /** `channel_id`: the live URL of a channel. */
    function ChannelId(channelId: string): (builder: LiveChatClientBuilder)
      requires liveUrl.None?
      ensures builder.liveUrl == Some(ChannelLiveUrl(channelId))
    {
      LiveChatClientBuilder(Some(ChannelPrefix + channelId + LiveSuffix))
    }

    /** `url`: any URL that parses, kept as it is. `parses` stands for
        `Url::parse`, which is not part of this model. */
    function Url(rawUrl: string, parses: string -> bool): (r: Result<LiveChatClientBuilder, Error>)
      requires liveUrl.None?
      ensures r.Success? <==> parses(rawUrl)
      ensures r.Success? ==> r.value.liveUrl == Some(rawUrl)
      ensures r.Failure? ==> r.error == UrlParse(rawUrl)
    {
      if parses(rawUrl) then Success(LiveChatClientBuilder(Some(rawUrl))) else Failure(UrlParse(rawUrl))
    }
  }

  /** The builder test's video id gives the watch URL it expects. */
  lemma BuilderLiveIdExample()
    ensures LiveChatClientBuilder.New().LiveId("_eM9C3zZL14").liveUrl ==
              Some("https://www.youtube.com/watch?v=_eM9C3zZL14")
  {
    assert WatchPrefix + "_eM9C3zZL14" == "https://www.youtube.com/watch?v=_eM9C3zZL14";
  }

  /** The builder test's channel id gives the live URL it expects. */
  lemma BuilderChannelIdExample()
    ensures LiveChatClientBuilder.New().ChannelId("UCHVXbQzkl3rDfsXWo8xi2qw").liveUrl ==
              Some("https://www.youtube.com/channel/UCHVXbQzkl3rDfsXWo8xi2qw/live")
  {
    var channelPart := ChannelPrefix + "UCHVXbQzkl3rDfsXWo8xi2qw";
    assert channelPart == "https://www.youtube.com/channel/UCHVXbQzkl3rDfsXWo8xi2qw";
    assert channelPart + LiveSuffix == "https://www.youtube.com/channel/UCHVXbQzkl3rDfsXWo8xi2qw/live";
  }

  // ---------------------------------------------------------------------
  // Client
  // ---------------------------------------------------------------------

  /** One callback invocation. */
  datatype Event =
    | OnStart(liveId: string)
    | OnChat(chatItem: ChatItem)
    | OnError(error: Error)
    | OnEnd

  /** One chat event per item, in order. */
  function ChatEvents(items: seq<ChatItem>): (events: seq<Event>)
    ensures |events| == |items|
    ensures forall i :: 0 <= i < |items| ==> events[i] == OnChat(items[i])
  {
    if items == [] then [] else [OnChat(items[0])] + ChatEvents(items[1..])
  }

  class LiveChatClient {
    const liveUrl: string
    var options: Option<RequestOptions>
    /** The callbacks invoked so far, oldest first. */
    ghost var events: seq<Event>

    /** `build`: a client for the chosen URL, not yet started. */
    constructor Build(builder: LiveChatClientBuilder)
      requires builder.liveUrl.Some?
      ensures liveUrl == builder.liveUrl.value
      ensures options == None && events == []
    {
      liveUrl := builder.liveUrl.value;
      options := None;
      events := [];
    }

    /** `start`: fetches the watch page of `liveUrl` and, on success, stores
        the session options and reports the live id. A failure is returned
        and changes nothing. */
    method Start(fetchLivePage: string -> Result<(RequestOptions, string), Error>) returns (r: Result<(), Error>)
      modifies this
      ensures var fetched := fetchLivePage(liveUrl);
        && (fetched.Success? ==>
              && r == Success(())
              && options == Some(fetched.value.0)
              && events == old(events) + [OnStart(fetched.value.1)])
        && (fetched.Failure? ==>
              && r == Failure(fetched.error)
              && options == old(options)
              && events == old(events))
    {
      var fetched := fetchLivePage(liveUrl);
      if fetched.Failure? {
        return Failure(fetched.error);
      }
      var (newOptions, liveId) := fetched.value;
      options := Some(newOptions);
      events := events + [OnStart(liveId)];
      r := Success(());
    }

    /** `execute`, one polling tick: fetches the chat with the current
        options, reports each item, and replaces only the continuation. A
        failed fetch is reported and keeps the previous options, so the next
        tick retries with the last good continuation; a client that was never
        started (or was stopped) reports that it is not ready. */
    method Execute(fetchChat: RequestOptions -> Result<(seq<ChatItem>, string), Error>)
      modifies this
      ensures old(options).None? ==>
                options == None && events == old(events) + [OnError(NotReady)]
      ensures old(options).Some? && fetchChat(old(options).value).Failure? ==>
                && options == old(options)
                && events == old(events) + [OnError(fetchChat(old(options).value).error)]
      ensures old(options).Some? && fetchChat(old(options).value).Success? ==>
                var (items, continuation) := fetchChat(old(options).value).value;
                && options == Some(old(options).value.(continuation := continuation))
                && events == old(events) + ChatEvents(items)
    {
      if options.None? {
        events := events + [OnError(NotReady)];
        return;
      }
      var current := options.value;
      var fetched := fetchChat(current);
      if fetched.Failure? {
        events := events + [OnError(fetched.error)];
        return;
      }
      var (chatItems, continuation) := fetched.value;
      var i := 0;
      while i < |chatItems|
        invariant 0 <= i <= |chatItems|
        invariant options == Some(current)
        invariant events == old(events) + ChatEvents(chatItems[..i])
      {
        ChatEventsSnoc(chatItems[..i], chatItems[i]);
        assert chatItems[..i + 1] == chatItems[..i] + [chatItems[i]];
        events := events + [OnChat(chatItems[i])];
        i := i + 1;
      }
      assert chatItems[..i] == chatItems;
      options := Some(current.(continuation := continuation));
    }

    /** `stop`: forgets the session and reports the end; it never fails. */
    method Stop() returns (r: Result<(), Error>)
      modifies this
      ensures r == Success(())
      ensures options == None
      ensures events == old(events) + [OnEnd]
    {
      options := None;
      events := events + [OnEnd];
      r := Success(());
    }
  }

  lemma ChatEventsSnoc(items: seq<ChatItem>, item: ChatItem)
    ensures ChatEvents(items + [item]) == ChatEvents(items) + [OnChat(item)]
  {
  }
}
