/** What the shortener stores in Redis against a slug. */
module CacheEntries {
  /** A short code; only its identity matters to the cache. */
  datatype Slug = Slug(text: string)

  /** Either where a slug leads, or the fact that it leads nowhere. */
  datatype Cached = Found(linkId: int, longUrl: string) | Missing

  /** A Redis payload: one of ours, or something `decode` refuses. */
  datatype Stored = Entry(v: Cached) | Garbage
}
