# Caching question server: Dafny model

This project models the logic of `src/server.js`, a small server that sits in
front of a text-completion service. It has two parts:

- **Environment placeholder substitution** (`src/server.js:1-5`). At start-up,
  every environment variable whose value contains `${DOMAIN}` is rewritten.
  `String.prototype.replace` replaces the first occurrence with the value of
  `DOMAIN`.
- **The `POST /question` handler** (`src/server.js:61-91`). This is a
  cache-aside lookup in an LRU cache of at most 150,000 entries. On a truthy
  hit it sends the cached answer. On a miss it writes a 200 header and then
  drives the upstream chunk stream. Each chunk is written to the caller and
  recorded. After the stream finishes, `end()` is called and the joined
  chunks are stored under the question. Any exception from the stream goes to
  the 500 branch, which does not touch the cache.

Modules, one per part of the program:

- `Wrappers` (`wrappers.dfy`): `Option`, standing for JavaScript's `undefined`.
- `JsString` (`jsstring.dfy`): the JavaScript string operations the code uses.
  These are `includes`, `replace` with a string pattern, and `join('')`.
  `replace` is modelled in full, including the replacement patterns of the
  ECMAScript GetSubstitution operation (`$$`, `$&`, `` $` ``, `$'`).
- `Environment` (`environment.dfy`): the rewriting step, the whole loop as a
  function of the visiting order, and an order-independent reference
  rewriting. The `ProcessEnv` class holds the variables as a map, and its
  `ExpandDomain` method rewrites them in place with a loop.
- `BoundedCache` (`cache.dfy`): the LRU as a class over a `map<string, string>`
  that keeps the capacity bound.
- `QuestionHandler` (`handler.dfy`): the events of a request (the handler's
  `next()` calls on the stream and its calls on the response), the upstream
  stream, the reply a miss produces, the streaming loop `StreamToCaller`, and
  the `Handle` method that wraps it with the cache lookup and fill.
- `Scenarios` (`scenarios.dfy`): scenarios proved from `Handle`'s contract
  alone. `PingTwice`, `FailCase` and `EmptyAnswerIsMiss` fix particular
  streams and start from a fresh cache. `AskTwice` is a general statement
  about any cache, question and pair of streams.

Modelling decisions:

- The upstream is `Upstream(chunks, failAt)`. The stream yields `chunks` in
  order. If `failAt == Some(i)` with `i <= |chunks|`, the `i`-th `next()`
  throws instead of yielding. `prompt` is an async generator, so calling it
  never throws. The completion request is made by the first `next()`, so a
  failing request is `failAt == Some(0)`.
- A request is a sequence of events. `Pull` is one `next()` of the
  `for await` loop on the stream. `WriteHead`, `Write`, `End` and `Send` are
  the calls on the response. A miss interleaves them as `WriteHead(200)`,
  `Pull`, `Write(c0)`, `Pull`, `Write(c1)`, ..., `Pull`, then `End` or the
  500 `Send`. A hit is the single `Send`, with no `Pull`, so it does no
  upstream work.
- `process.env.DOMAIN` is read again for every variable. When it is unset,
  `replace` receives the text `"undefined"`.
- If `DOMAIN`'s own value contains `${DOMAIN}`, the loop rewrites `DOMAIN`
  too, and variables visited after it see the new value. The result then
  depends on `Object.keys` order, which the model takes as a parameter.
  `SelfReferenceDependsOnOrder` exhibits this.
- Three behaviours of the code are kept as written:
  - There is no registry of in-flight requests and no request coalescing, so
    concurrent identical questions each query upstream.
  - The 200 header is written before the stream is first driven, so every
    failure sends the 500 error body after a 200 header. This includes a
    failure of the completion request itself. `FailedMissDeliversPrefix`
    states it.
  - A cached empty answer is falsy, so it is treated as a miss, queried
    again and overwritten (`EmptyAnswerIsMiss`).

## Model

| member | source | states |
|---|---|---|
| JsString.Includes | src/server.js:2 | definition of `includes` as a search for the first match; its properties are the rows `JsString.IndexOfFrom` and `JsString.IncludesIff` |
| JsString.Substitution | src/server.js:4 | definition of ECMAScript GetSubstitution for `$$`, `$&`, `` $` `` and `$'`; its properties are the rows `JsString.SubstitutionLiteral` and `JsString.LaterOccurrenceKept` |
| JsString.ReplaceFirst | src/server.js:4 | definition of `replace` with a string pattern; its properties are the rows `JsString.ReplaceFirstAbsent`, `JsString.ReplaceFirstAt`, `JsString.ReplaceFirstLiteral`, `JsString.LaterOccurrenceKept` and `JsString.LaterOccurrenceKeptLiteral` |
| JsString.Join | src/server.js:82 | definition of `join('')`; its properties are the rows `JsString.JoinAppend` and `JsString.JoinAt` |
| JsString.IndexOfFrom | src/server.js:2 | the result is a position where the pattern occurs and no earlier position from the start has one; None means no position has one |
| JsString.IncludesIff | src/server.js:2 | `includes` holds exactly when the pattern occurs at some position |
| JsString.SubstitutionLiteral | src/server.js:4 | a replacement without `$$`, `$&`, `` $` `` or `$'` patterns is inserted verbatim |
| JsString.ReplaceFirstAbsent | src/server.js:4 | with no occurrence of the pattern, `replace` returns the string unchanged |
| JsString.ReplaceFirstAt | src/server.js:4 | given the first occurrence at `p`, the result is the prefix, then the replacement as GetSubstitution expands it, then the rest of the string after the match |
| JsString.ReplaceFirstLiteral | src/server.js:4 | given the first occurrence at `p` and a pattern-free replacement, the result is the prefix, then the replacement, then the rest of the string after the match |
| JsString.LaterOccurrenceKept | src/server.js:4 | for any replacement text, every later occurrence of the pattern is still in the result, shifted by the length of the expanded replacement minus the pattern's length: only the first occurrence is replaced |
| JsString.LaterOccurrenceKeptLiteral | src/server.js:4 | with a replacement free of `$` patterns, the shift is the replacement's length minus the pattern's length |
| JsString.JoinAppend | src/server.js:82 | `join('')` of two concatenated chunk lists is the concatenation of their joins |
| JsString.JoinAt | src/server.js:82 | each chunk appears in the joined text, in order, right after the chunks before it |
| Environment.ExpandStep | src/server.js:2-4 | one callback keeps the set of variable names and changes no variable other than its own |
| Environment.ExpandAll | src/server.js:1-5 | the whole loop never adds or removes a variable name |
| Environment.ExpandKeepsPlainValue | src/server.js:2 | a variable whose value lacks `${DOMAIN}` ends with its original value |
| Environment.ExpandKeepsUnvisited | src/server.js:1-5 | a variable not yet visited still has its original value |
| Environment.ExpandValueAt | src/server.js:1-5 | the `i`-th visited variable ends as its original value with the first `${DOMAIN}` replaced by `DOMAIN`'s value at that moment, or unchanged if it has no placeholder |
| Environment.ExpandMatchesReference | src/server.js:1-5 | unless `DOMAIN` itself holds the placeholder, the loop gives the order-independent reference result for every visiting order |
| Environment.SelfReferenceDependsOnOrder | src/server.js:1-5 | a concrete environment where visiting `DOMAIN` first or last gives different results |
| Environment.ProcessEnv.ExpandDomain | src/server.js:1-5 | the in-place loop leaves exactly the loop's result, keeps the names, and gives the reference result when `DOMAIN` is not self-referential |
| BoundedCache.SetOutcomeKeepsOthers | src/server.js:16-17 | after `set` the key maps to the value. Every other remaining entry is unchanged. An entry is lost only when a new key met a full cache |
| BoundedCache.Lru.constructor | src/server.js:16-21 | the cache starts empty and within its bound |
| BoundedCache.Lru.Get | src/server.js:65 | `get` finds a value exactly for the keys present, and that value is the stored one |
| BoundedCache.Lru.Set | src/server.js:83 | stores the value. It evicts exactly one other entry exactly when a new key meets 150,000 entries, returns that entry, and keeps the size within 150,000 |
| QuestionHandler.Next | src/server.js:75 | definition of one `next()` of the stream; its properties are the rows `QuestionHandler.NextInOrder` and `QuestionHandler.StreamToCaller` |
| QuestionHandler.Truthy | src/server.js:66 | definition of the `if (cached)` test: a missing entry and the empty string are falsy; its properties are the rows `QuestionHandler.Handle` and `Scenarios.EmptyAnswerIsMiss` |
| QuestionHandler.NextInOrder | src/server.js:75 | the stream yields its chunks in index order, then ends or throws |
| QuestionHandler.RelayDeliversJoin | src/server.js:75-77 | the text carried by the relayed chunks is the joined chunks |
| QuestionHandler.MissReplyInOrder | src/server.js:74-79 | a miss produces one 200 header, then for each yielded chunk in stream order a `next()` followed by that chunk's write, then a last `next()`, then `end()` or the 500 body |
| QuestionHandler.MissReplyText | src/server.js:74-89 | a miss delivers exactly the joined chunks yielded before the stream finished or threw |
| QuestionHandler.CompletedMissDeliversJoin | src/server.js:74-83 | on a completed stream the caller receives exactly the text stored in the cache |
| QuestionHandler.FailedMissDeliversPrefix | src/server.js:74-89 | on failure the chunks yielded before it stay delivered, and the 500 error body follows the 200 header |
| QuestionHandler.StreamToCaller | src/server.js:74-79 | the stream loop records exactly the yielded chunks. It writes the 200 header, then a `next()` and a write per chunk in order, then the last `next()`. It reaches `end()` exactly when the stream did not throw |
| QuestionHandler.Handle | src/server.js:61-91 | truthy hit: the only event is sending the cached value (no `next()`), and the cache is kept. Miss: the events are the miss reply. On failure the cache is unchanged. On completion the joined chunks are stored, possibly evicting one other entry |
| Scenarios.PingTwice | src/server.js:61-91 | "ping" streamed as p, o, n, g is written in that order, and then served from the cache as "pong" with no upstream call |
| Scenarios.AskTwice | src/server.js:65-83 | after a completed miss with a non-empty answer, the repeated question is a hit whose body is the text the first caller received |
| Scenarios.FailCase | src/server.js:70-89 | a stream that throws after "partial" delivers "partial" and then the 500 body; no cache entry is made |
| Scenarios.EmptyAnswerIsMiss | src/server.js:66 | a completed miss whose chunks join to the empty string caches `""`; that entry is falsy, so the next request for the question goes upstream again and overwrites it |

## Left out

- BoundedCache.Lru.Set: the entry evicted on overflow is an arbitrary other entry, not the least recently used. `lru.min`'s recency order is not part of this model.
- BoundedCache.Lru.Get: does not move the entry to most-recently-used, for the same reason.
- The eviction callback's `console.log` (`src/server.js:18-20`) is console output. `Set` returns the entry removed for capacity instead. When the library fires the callback, for example whether it also fires on an overwrite, is not part of this model.
- The catch branch's `app.log.error(error)` (`src/server.js:87`) is log output. The model keeps only the 500 reply that follows it.
- The OpenAI client, the Langfuse trace and the `chat.completions.create` call (`src/server.js:25-36, 44-59`) are network and foreign calls. They are replaced by the `Upstream` value given to `Handle`.
- Chunks are strings. Whether `delta.content` can be `undefined`, and how `write` treats it (`src/server.js:57, 77`), depend on foreign libraries.
- The start-up "tell me a joke" prompt (`src/server.js:38-42`) is console I/O only.
- Fastify setup, routing, body parsing and `listen` (`src/server.js:11-14, 62, 93-94`) are framework code. So is the framing of the raw response, including what the framework does when `send` runs after a header was already written.
- Exceptions thrown outside the `try` block are not modelled, for example a request without a body. They are handled by the framework.
- Interleaving of concurrent requests at `await` points is not modelled: each `Handle` call runs to completion. The code has no coordination between requests to verify.
- The environment's iteration order, `Object.keys(process.env)`, is a parameter and not computed.
- Strings are Dafny strings, sequences of Unicode scalar values, not JavaScript's UTF-16 code units. Positions and lengths in `includes` and `replace` differ from JavaScript's for text outside the Basic Multilingual Plane. Strings holding lone surrogates cannot be represented.
