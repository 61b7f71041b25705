/** The errors the core reports. The Rust code uses `anyhow::Error` built from
    format strings; each variant below stands for one of those messages. */
module Errors {

  datatype Error =
    /** "Live Stream was not found." (no canonical watch link in the page) */
    | LiveStreamNotFound
    /** "{live_id} is finished live." (replay marker found, and also reported
        when the API key is missing) */
    | FinishedLive(liveId: string)
    /** "Client Version was not found." (client version missing, and also
        reported when the initial continuation is missing) */
    | ClientVersionNotFound
    /** "This client is not ready for execute, just call `start`" */
    | NotReady
    /** The error `Url::parse` returns for a malformed watch URL. */
    | UrlParse(raw: string)
    /** An error of the HTTP transport or of the JSON decoding, neither of
        which is part of this model. */
    | Transport(message: string)
}
