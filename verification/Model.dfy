/** The values that travel through the bot runtime: configuration, inbound
    events and the record stored for a contact+conversation pair. */
module Model {
  datatype Option<+T> = None | Some(value: T)

  datatype BotConfig = BotConfig(
    debounceTime: int,          // seconds; 0 means no debounce window
    messageSignature: string,
    segmentationEnabled: bool,
    segmentationLimit: int,
    segmentationMinSize: int,
    delayPerCharacter: real)

  datatype Attachment = Attachment(url: string, contentType: string, fileType: string)

  /** What a turn carries from the event to the AI and dispatch stages. `metadata`
      stands for the untyped JSON object of the event. */
  datatype Turn = Turn(
    cfg: BotConfig,
    postbackURL: string,
    outgoingURL: string,
    apiKey: string,
    metadata: string)

  datatype Event = Event(content: string, attachments: seq<Attachment>, turn: Turn) {
    /** The debounce check that the HTTP handler makes before it accepts an event. */
    predicate Valid() {
      turn.cfg.debounceTime >= 0
    }
  }

  /** An in-memory pipeline entry; `gen` names the context created for it. */
  datatype Entry = Entry(gen: nat, turn: Turn)

  const MILLIS_PER_SECOND: nat := 1000

  const INT64_LIMIT: int := 0x8000_0000_0000_0000
  const UINT64_LIMIT: int := 0x1_0000_0000_0000_0000
}
