/** The session parameters that the bootstrap step extracts and every chat
    fetch sends (youtube_chat/src/request.rs). */
module Request {

  datatype RequestOptions = RequestOptions(
    apiKey: string,
    clientVersion: string,
    continuation: string)
}
