/** The fixed configuration the relay and the browser session share. */
module Config {

  /** The origin's live playlist. */
  const WccStreamUrl := "https://stream.wccgames7.xyz/wccstream/streams/live.m3u8"
}
