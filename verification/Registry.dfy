/** The names under which filters register themselves. */
module Registry {
  datatype FilterName =
    | ProtectLocalUser | EventType | Sender | UnsafeSigningKey
    | HellbanPrefilter | HellbanPostfilter
    | Keyword | KeywordTemplate | Density | Length | ManyAts | Media | UntrustedMedia | InlineEmojiSize
    | Mentions | Mjolnir | TrimLength | OpenAIOmni | StickyEvents | Link | MentionsFrequency | Frequency
    | UserIdContainsWords | UserIdLength | MediaScanning
}
