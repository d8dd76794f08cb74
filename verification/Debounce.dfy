/** The debounce engine: ordered writes to the buffer, the media list and the timer. */
module Debounce {
  import opened Model
  import opened Sequences
  import opened Keys
  import opened Turns
  import opened Repository

  class DebounceEngine {
    const repo: RedisRepository

    constructor (repo: RedisRepository)
      ensures this.repo == repo
    {
      this.repo := repo;
    }

    method Start(p: PairID, ev: Event)
      requires repo.Valid()
      modifies repo`kv
      ensures repo.Valid() && Data(repo.kv, p) == Buffered(old(Data(repo.kv, p)), repo.now, ev)
      ensures OnlyPair(old(repo.kv), repo.kv, p) && Locked(repo.kv, p) == old(Locked(repo.kv, p))
    {
      repo.AppendToBuffer(p, ev.content);
      repo.AppendAttachments(p, ev.attachments);
      var cfg := ev.turn.cfg;
      if cfg.debounceTime > 0 {
        repo.SetTimer(p, cfg.debounceTime * MILLIS_PER_SECOND);
      }
    }

    method Reset(p: PairID, ev: Event)
      requires repo.Valid()
      modifies repo`kv
      ensures repo.Valid() && Data(repo.kv, p) == Buffered(old(Data(repo.kv, p)), repo.now, ev)
      ensures OnlyPair(old(repo.kv), repo.kv, p) && Locked(repo.kv, p) == old(Locked(repo.kv, p))
    {
      repo.AppendToBuffer(p, ev.content);
      repo.AppendAttachments(p, ev.attachments);
      var cfg := ev.turn.cfg;
      if cfg.debounceTime > 0 {
        repo.SetTimer(p, cfg.debounceTime * MILLIS_PER_SECOND);
      }
    }

    method GetBuffer(p: PairID) returns (message: string)
      requires repo.Valid()
      ensures message == Message(Data(repo.kv, p).buffer)
    {
      var texts := repo.GetBuffer(p);
      message := Join(texts, "\n\n");
    }
  }
}
