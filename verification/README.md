# LOD: a verified model of the tile cache

LOD is a proxy that caches map tiles. This project models its four hardest pieces in Dafny and
proves what they do over every input, every schedule and every run. Run
`dafny verify dfyconfig.toml` to check it.

**Enumerating a tile's descendants** (`Quadtree`, `Accounts`, `DeepChildren`). `DeepChildren` starts
one goroutine per tile, which send on an unbuffered channel to a collector. Each scheduler step is an
action of a state machine. Every step conserves the tiles sent and still owed, so a schedule ends after
exactly five steps a tile and three more, and cannot get stuck before. The collector is never joined:
the list returned is complete exactly when the collector's hand is empty at the moment the caller
reads the list, it misses at most one tile otherwise, and for every tile there are schedules with
either outcome. What is enumerated is given exactly, wrap-around of Go's 64-bit integers included;
the closed form "the tiles whose coordinates divide down to the start tile's" holds exactly when no
coordinate overflows.

**The TilePacket format** (`Packet`). `Encode` and the reading functions, with truncating length
fields and an arbitrary map order. Decoding returns tile and headers exactly when the lengths fit
their fields; the packets `Encode` can make within the limits are exactly the well-formed ones.

**The two-level cache** (`CacheProtocol`, `Resurrection`, `PlainMap`, `Cache`, `FetchLaw`). Both tiers
and every goroutine that reads or writes them, interleaved step by step with evictions, expiry and
failures, from a process start on: memory empty, and in Redis whatever the server already holds, left
by an earlier process or by anyone else. Everything stored, pending or served for a key is the packet
of a response accepted for that key, or what Redis held for it. A key can be served again without a
new response exactly when a tier holds, or some goroutine carries, a packet for it that validates and
can be read, a pending refresh after a hit included. Where operations on one key do not overlap, the
tiers are one plain map, starting out as what Redis has to serve; evictions, flushes and the wiping of
bad entries go unnoticed, and a `Fetch` returns the packet of the last response, or nothing after an
invalidation. The `Cache` class has the source's methods; each is shown to be a run of the step model,
and the answer of `Fetch` to be what that run serves.

**Key templates and bulk jobs** (`Template`, `CacheKeys`, `KeyPieces`, `KeyOrder`, `KeySeparation`,
`UncleanKeys`, `BulkInvalidation`, `PrimingPool`, `TileWorker`, `PrimingJob`). Successive `ReplaceAll`
calls against one-pass substitution, what a key reads like piece by piece, exactly which parameter
values make a key depend on Go's map order, the conditions under which keys tell tiles apart, bulk
invalidation on top of all of the above, and the priming worker pool as a second state machine, joined
with what its workers write to the cache.

**Tiles that meet a geometry** (`DeepIntersect`, `TileBox`). The goroutines of `DeepIntersect` for any
test, and the test on tile boxes over the reals.

Findings where the code does less than it promises:

- `DeepChildren` is documented to return all descendants but may return without the tile sent last
  (`DeepChildren.BothOutcomesHappen`), so a bulk job may skip one tile.
- `Bounds` hands `geos.NewBounds` the corners as (north, west, south, east) where it takes
  (minX, minY, maxX, maxY). North exceeds south, so the box is empty (the vendored go-geos makes an
  empty point of it, `go-geos.c:137-139`), no geometry meets it, and `DeepIntersect` sends nothing
  (`TileBox.AsCodedNothingIsSent`).
- A query value with an opening brace can form another parameter's token, and then the key depends on
  the iteration order of a Go map (`KeyOrder.OrderMatters`; for exactly which values, in
  `KeyOrder.OrderFreeIffSettled`).
  Bulk invalidation then may delete a tile's entry under one key and leave it under another
  (`BulkInvalidation.StaleKeySurvives`).
- A key template such as `{z}/{x}{y}` passes the configuration's test, yet distinct tiles share keys
  (`UncleanKeys.AdjacentTokensCollide`; exactly when, for requests whose values bring in no tokens, in
  `KeySeparation.KeysSeparateIff`, and for other requests, as long as no parameter name can swallow a
  coordinate, in `UncleanKeys.SeparateInOrderIff`).
- A parameter name may contain digits, and then an opening brace in another parameter's value can make
  a coordinate part of a token: with names `1/` and `2/`, tiles (1, 5) and (2, 5) share the key `w5/7`
  under a well-spaced template (`UncleanKeys.NumberSwallowed`), so that invalidating one deletes the
  other.
- `Invalidate` deletes from memory first. A `Fetch` between its two deletions brings the entry back
  from Redis, so that a successful `Invalidate` leaves it in memory
  (`BulkInvalidation.FetchBetweenDeletes`).
- A Redis entry under 36 bytes can validate, and then makes `Fetch` read beyond it; the request ends
  in a panic that the server recovers from (`Packet.ValidButTooShort`, `Cache.Cache.Fetch`). So does
  a Redis error while the memory tier is off: the error that is logged is nil (cache/cache.go:272).
- Bulk invalidation answers "ok" for every list, even when each `Invalidate` fails
  (`BulkInvalidation.InvalidateTiles` states the answer, `BulkInvalidation.AfterAllIsExact` what was
  really deleted).

## Model

| member | source | states |
|---|---|---|
| `Quadtree.SubtreeIsExact` | tile/tile.go:127-142 | Every tile is enumerated exactly as often as its two coordinates occur in the rows below the start tile, wrap-around of 64-bit coordinates included, at any depth |
| `Quadtree.RowSplits` | tile/tile.go:75-98 | The coordinates k levels below b are those below the left and the right child of b, each as often, also across an overflow |
| `Quadtree.SubtreeClosedForm` | tile/tile.go:127-142 | The enumeration is exactly the descendants, each once, if and only if no coordinate overflows |
| `Quadtree.NoDuplicates` | tile/tile.go:127-142 | No tile is enumerated twice if and only if the descent has at most 64 levels |
| `Quadtree.SubtreeSize` | tile/tile.go:127-142 | The enumeration has (4^(d+1) - 1) / 3 tiles for the d = maxZoom - zoom levels below the start tile, overflow or not, and one where maxZoom is no deeper |
| `Quadtree.DescendantsStayOnMap` | tile/tile.go:75-98 | From a tile with 0 <= x, y < 2^zoom, down to zoom 63, nothing overflows and every tile enumerated keeps that bound |
| `Quadtree.MapSubtree` | tile/tile.go:127-142 | From a tile of the map, down to zoom 63: the tile itself and exactly the tiles of deeper levels up to maxZoom whose coordinates divide down to its own, each once |
| `DeepChildren.StepBalances` | tile/tile.go:109-142 | Every step moves the counter with the workers' holdings, conserves sent plus owed tiles, and uses up one step |
| `DeepChildren.Conservation` | tile/tile.go:102-142 | In every interleaving the counter is what started and promised goroutines hold, and kept, in-hand and owed tiles are the whole enumeration |
| `DeepChildren.WaitReturnsWhenAllSent` | tile/tile.go:119-142 | The counter is never negative and is zero exactly when every goroutine has ended; from then on every tile has been sent exactly once and nobody is left to send on the closed channel |
| `DeepChildren.NoDeadlock` | tile/tile.go:102-142 | Until all goroutines have ended, one of them can move |
| `DeepChildren.NothingAfterTheEnd` | tile/tile.go:102-142 | Once all have ended no step is left |
| `DeepChildren.EveryScheduleEnds` | tile/tile.go:102-142 | No schedule runs longer than five steps a tile and three; that length, the end of all goroutines and having no next step are the same thing |
| `DeepChildren.ReturnedList` | tile/tile.go:102-123 | The returned list and at most one missed tile make up the enumeration, the missed tile being the one in the collector's hand; the drained list is exactly the enumeration |
| `DeepChildren.CompleteIffHandEmpty` | tile/tile.go:110-122 | The list read at the return is complete exactly when the collector holds no tile at that moment |
| `DeepChildren.BothOutcomesHappen` | tile/tile.go:109-122 | For every tile and zoom there is a schedule returning the complete list and one returning an incomplete list |
| `Packet.Encode` | packet/encode.go:9-62 | The packet is checksum and payload of tile and headers under some order of the header map, lengths truncated to their fields; it decodes to tile and headers if and only if the lengths fit |
| `Packet.AppendHeader` | packet/encode.go:30-48 | One header becomes its two truncated lengths, key and value, in that order |
| `Packet.SetChecksum` | packet/encode.go:53-59 | The first 32 bytes become the computed checksum, the rest stays |
| `Packet.EncodedBytes` | packet/encode.go:9-62 | Byte by byte: the digest of everything behind byte 32, the tile's length in four bytes, low one first, the number of headers mod 256, and the tile at the very end |
| `Packet.EncodedHeader` | packet/encode.go:30-48 | Header number i stands behind byte 37 and the headers before it: two bytes of key length, low one first, the key, two bytes of value length, the value |
| `Packet.Validate` | packet/packet.go:49-64 | True exactly if the bytes are some payload with its own digest in front |
| `Packet.FromBytes` | packet/packet.go:22-31 | The bytes themselves exactly if they are some payload with its own digest in front, else nothing |
| `Packet.UsableIff` | packet/packet.go:49-76 | A packet validates and has its size field within reach exactly if it is a payload behind its own digest and 36 bytes or more |
| `Packet.ParseHeaders` | packet/packet.go:79-102 | The map of the entries found by walking from byte 37, or nothing exactly when the walk leaves the packet |
| `Packet.ParseHeader` | packet/packet.go:86-98 | One key and value and the offset behind them, or nothing when they leave the packet |
| `Packet.SizeOfPacket` | packet/packet.go:74-76 | The size read back is the tile's length mod 2^32 |
| `Packet.TileDataOfPacket` | packet/packet.go:67-71 | Without any limits an encoded packet validates and its tile data is the last (length mod 2^32) bytes of the tile |
| `Packet.ReadEntriesOfPacket` | packet/packet.go:79-102 | As far as entries are small, walking an encoded packet yields them in order |
| `Packet.HeadersOfPacket` | packet/packet.go:79-108 | With keys and values under 2^16 bytes, the headers read are exactly the first (count mod 256) in iteration order |
| `Packet.RoundTrip` | packet/packet.go:39-46 | For every map and every order: decoding gives back tile and headers if and only if there are under 256 headers, keys and values under 2^16 bytes and a tile under 2^32 |
| `Packet.HeadersAreWithinLimits` | packet/packet.go:79-108 | Headers read from any bytes at all are within those limits |
| `Packet.DecodeThenEncode` | packet/encode.go:9-62 | A validating packet with distinct headers that end where the tile data begins is re-created byte for byte under some order |
| `Packet.EncodeImage` | packet/encode.go:9-62 | Those packets are exactly the ones Encode makes within the limits |
| `Packet.ValidButTooShort` | packet/packet.go:39-76 | A packet of 32 bytes can validate and still make Decode read out of bounds |
| `Packet.CorruptedIff` | packet/packet.go:39-46 | Decode reports corruption exactly for bytes that are no payload with its own digest in front |
| `Packet.DecodedParts` | packet/packet.go:39-108 | Whatever is decoded: the tile is as many of the last bytes as the little-endian size field says, and each header name has the value of its last entry behind byte 37 |
| `Packet.SafeToRead` | packet/packet.go:39-108 | Decode of a validating packet stays in bounds if and only if it has 37 bytes, its size field is at most its length, and the announced number of header entries stands behind byte 37 |
| `CacheProtocol.Provenance` | cache/cache.go:232-375 | Over all runs, from any Redis contents, everything in either tier or in a pending goroutine for a key is the packet of a response accepted for that key, or Redis held it under that key from the start |
| `CacheProtocol.StepKeepsKnown` | cache/cache.go:232-375 | No single step brings in anything else |
| `CacheProtocol.ServedIsKnown` | cache/cache.go:285-316 | Every packet served at any step of any run validates, and is the packet of a response accepted before for that key or what Redis came with |
| `CacheProtocol.EveryHitIsAResponse` | cache/cache.go:285-316 | Whatever Fetch finds that Redis did not come with belongs to an accepted response, is served and never wiped, has its tile data in bounds, and within the limits decodes to exactly that body and those headers |
| `CacheProtocol.RespondStarts` | helpers/helpers.go:204-239 | A 204 response starts an EncodeSet whatever its body, a 200 response if it has a body, no other response does; neither tier changes |
| `CacheProtocol.InUseWasDelivered` | cache/cache.go:232-347 | In every run, whatever a tier holds or Fetch is about to serve that Redis did not come with is the packet of a 204 response delivered for that key, or of a 200 response with a body |
| `Resurrection.NoResurrection` | cache/cache.go:232-367 | A key in neither tier and carried by no goroutine stays so and is never served, in every run without an accepted response for it |
| `Resurrection.NothingToServe` | cache/cache.go:232-367 | Where neither a tier nor a goroutine has a packet for the key that can be served, it is never served in any run without an accepted response for it, whatever bad entries there are |
| `Resurrection.ServedAgainIff` | cache/cache.go:297-316 | With at least one tier enabled, in every state in which disabled tiers are empty, a key can be served without a new response if and only if a tier holds or a goroutine carries a packet for it that validates and can be read |
| `Resurrection.ServedAgainUnlessGone` | cache/cache.go:311-316 | With at least one tier enabled, in every state reached from any Redis whose entry for the key, if any, can be served: it can be served without a new response if and only if it is in a tier or carried by a goroutine |
| `Resurrection.RunKeepsTiers` | cache/cache.go:326-347 | A disabled tier stays empty and is never written to |
| `PlainMap.StepAgrees` | cache/cache.go:232-375 | Each step of an orderly run keeps both tiers and all goroutines of a key in agreement with the plain map |
| `PlainMap.FetchSeesPlainMap` | cache/cache.go:232-316 | From any Redis contents, at each step of a Fetch what it observes is the plain map's value: in memory if there, in Redis something to serve exactly if the map has the key, and in what is served |
| `PlainMap.DropsUnnoticed` | cache/cache.go:370-375 | Flushing or evicting from the memory tier does not disturb the agreement |
| `PlainMap.TiersAtRest` | cache/cache.go:232-375 | From any Redis contents, whenever nothing is pending the plain map is exactly the part of Redis that can be served, and the memory tier is a submap |
| `FetchLaw.FetchAnswersPlainMap` | cache/cache.go:232-316 | After any orderly run, a Fetch in which nothing fails and which overlaps no store or invalidation of its key returns p exactly if the plain map holds p for the key |
| `FetchLaw.LastResponseIsServed` | cache/cache.go:232-347 | If the last change of the key was the encoding of a response, that Fetch returns its packet, which decodes to body and headers if and only if they are within the limits |
| `FetchLaw.NothingAfterInvalidate` | cache/cache.go:232-367 | If it was an invalidation, Fetch returns nothing |
| `FetchLaw.RedisAsFound` | cache/cache.go:256-316 | If there was none, Fetch returns p exactly if Redis came with p under the key and p validates and can be read |
| `Cache.Cache.constructor` | cache/cache.go:102-147 | A new cache has an empty memory, the contents of the Redis server it attaches to, no goroutine and zero counters |
| `Cache.Cache.Invalidate` | cache/cache.go:350-367 | The key leaves memory, then Redis; an error in memory leaves Redis alone; success is reported exactly when every enabled tier did as asked |
| `Cache.Cache.Fetch` | cache/cache.go:232-316 | The value is memory's if it has one, else Redis's. A payload of 4 bytes or more behind its own digest is returned and refreshed, a shorter one panics, anything else is wiped and nothing returned. With no value or a tier error nothing is returned and nothing changes, save that a Redis error panics when memory is off. Hits and misses are counted as in the source |
| `Cache.Cache.Unwrap` | cache/cache.go:296-316 | What becomes of a value that was found: returned and refreshed, a panic, or wiped, by the same three cases |
| `Cache.Cache.Set` | cache/cache.go:326-347 | Memory is written in place and a Redis write is started unless the call is internal only |
| `Cache.Cache.EncodeSet` | cache/cache.go:320-323 | The packet of body and headers under some order is set in both tiers |
| `Cache.Cache.ProcessResponse` | helpers/helpers.go:199-242 | An EncodeSet is started and success reported exactly for 204, or 200 with a body, when the body could be written |
| `Cache.Cache.FlushInternal` | cache/cache.go:370-375 | The memory tier is emptied, Redis is not |
| `Cache.FetchIsARun` | cache/cache.go:232-316 | Fetch on the object is a run of the step model; it returns p exactly if some step of that run serves p for the key, and panics exactly if some step does, else it returns nothing |
| `Cache.InvalidateIsARun` | cache/cache.go:350-367 | So is Invalidate |
| `Cache.SetIsARun` | cache/cache.go:326-347 | So is Set |
| `Cache.EncodeSetIsARun` | cache/cache.go:320-323 | So is EncodeSet |
| `Template.ReplaceToken` | helpers/helpers.go:80-100 | ReplaceAll of one token, on text with other names substituted, equals substituting one name more, if nothing substituted can begin or complete that token |
| `Template.SequentiallyIsOnePass` | helpers/helpers.go:95-98 | Replacing a set of tokens one after the other, in any order, equals one simultaneous substitution, if either the template does not nest braces and no other value has the token begin in it, or the values are not empty and share no character with the tokens |
| `KeyOrder.OrderMatters` | helpers/helpers.go:95-98 | For every parameter value that is not settled there are a template the configuration accepts, a second parameter with a harmless value, both as FillParamsMap collects them, and two orders that give every tile two different keys |
| `KeyOrder.OrderFreeIffSettled` | helpers/helpers.go:95-98 | A parameter value leaves the key independent of the map's order, for every accepted template without nested braces and all other values without opening braces, if and only if each opening brace in it goes on to another opening brace or closes a name no other parameter can have |
| `CacheKeys.ItoaIsInjective` | tile/tile.go:68-72 | Distinct integers print differently |
| `CacheKeys.InjectStringIsOnePass` | tile/tile.go:68-72 | For any template at all, the three replacements in any order are one simultaneous substitution |
| `CacheKeys.FillParamsMap` | helpers/helpers.go:105-117 | The loop puts the map together as ParamsMap does: a value in the query always counts, and only configured names are in it |
| `CacheKeys.QueryWins` | helpers/helpers.go:108-110 | A value in the query that is not empty is the parameter's value, whatever the defaults and duplicates |
| `CacheKeys.DefaultCounts` | helpers/helpers.go:108-110 | Without one, the default is, if not empty; of several parameters with the same name, the last one with a default |
| `CacheKeys.NoValue` | helpers/helpers.go:108-110 | With neither, the name is not in the map |
| `CacheKeys.ParamsMapHolds` | helpers/helpers.go:105-117 | With distinct names each parameter is in the map exactly if its value is not empty, and with that value |
| `CacheKeys.ParamsMapNames` | helpers/helpers.go:105-117 | Nothing else is in the map, and no value in it is empty |
| `CacheKeys.BuildCacheKey` | helpers/helpers.go:67-101 | The override tile, else the request's, else an error; the key is coordinates, endpoint and parameters replaced in some order, and for clean input the one-pass substitution |
| `CacheKeys.AnyOrderIsOnePass` | helpers/helpers.go:80-100 | For a template without nested braces, and values in which no other parameter's token begins, every iteration order of the parameters gives the one-pass substitution |
| `KeySeparation.KeyPrints` | helpers/helpers.go:80-100 | The one-pass key of any template is the template's layout: the coordinates printed in place, and the text between them filled in on its own |
| `KeyPieces.KeyReads` | helpers/helpers.go:67-101 | For a template made of text and names in braces and a clean request: the key, in any order of the parameters, is the template's pieces in order, x, y, z replaced by the tile's numbers, e by the endpoint if there is one, each parameter by its value, every other name left as it is |
| `KeyPieces.DefaultKey` | config/config.go:104-108 | Under the default template the key is zoom/x/y in decimal, for every request, clean or not, and all orders |
| `CacheKeys.ItoaSpelled` | tile/tile.go:68-72 | Decimal, most significant digit first, a minus sign in front |
| `KeySeparation.PrintIsInjective` | tile/tile.go:68-72 | Coordinates separated by something other than digits can be read back from the key |
| `KeySeparation.SeparatesIff` | tile/tile.go:68-72 | For one occurrence of each coordinate: distinct tiles have distinct strings if and only if neither gap between the coordinates consists of digits alone |
| `KeySeparation.ContainedIsAField` | config/config.go:363-385 | A coordinate token the configuration finds in the template is a coordinate of the layout |
| `KeySeparation.CleanKey` | helpers/helpers.go:67-101 | For clean requests (no nested braces, and no value in which another parameter's token begins), the keys the program can build for a tile, over all orders, are exactly the one-pass key |
| `KeySeparation.DistinctTilesDistinctKeys` | helpers/helpers.go:67-101 | For clean requests, with text other than digits between the coordinates: no key the program builds for one tile, in any order, is a key it builds for another |
| `KeySeparation.KeysSeparateIff` | helpers/helpers.go:67-101 | For clean requests and one occurrence of each coordinate: the keys the program builds, in any orders, tell all tiles apart if and only if neither gap between the coordinates, endpoint and parameters filled in, consists of digits alone |
| `UncleanKeys.ReplaceSplits` | helpers/helpers.go:80-100 | A replacement works on the text before and after a number separately, unless the text before it ends in the beginning of the token and the token goes on with a digit or a minus sign |
| `UncleanKeys.KeyInOrderPrints` | helpers/helpers.go:67-101 | For any values, as long as that never happens along the order: the key is the template's layout, with the replacements made in each piece of text on its own |
| `UncleanKeys.SeparateInOrderIff` | helpers/helpers.go:67-101 | Under that condition, for one occurrence of each coordinate and one and the same order: distinct tiles have distinct keys if and only if neither gap, replaced in that order, consists of digits alone |
| `UncleanKeys.NumeralFreeNamesSeparate` | helpers/helpers.go:67-101 | For every request whose parameter names have no digits and minus signs, with text other than digits between the coordinates: in one and the same order, distinct tiles have distinct keys |
| `UncleanKeys.NumberSwallowed` | helpers/helpers.go:67-101 | Without either condition a template and request the configuration admits give two tiles the same key, in the same order, although the one-pass keys differ |
| `UncleanKeys.DefaultTemplateSeparates` | config/config.go:104-108 | The default template tells all tiles apart, for every request and in all orders |
| `UncleanKeys.AdjacentTokensCollide` | config/config.go:363-385 | `{z}/{x}{y}` passes the configuration's test, yet tiles (1, 11) and (11, 1) of every level share every key, for all requests and orders |
| `BulkInvalidation.InvalidateTiles` | www/handlers/admin/cache.go:65-80 | Each listed tile's key is built and invalidated in turn; the answer is "ok" with all tiles counted, whatever Invalidate reports |
| `BulkInvalidation.AfterAllIsExact` | www/handlers/admin/cache.go:67-80 | For any failures: an entry leaves a tier exactly if some Invalidate of its key reached and deleted it; every other entry of either tier is unchanged |
| `BulkInvalidation.AfterAllIsARun` | www/handlers/admin/cache.go:67-80 | The loop is a run of the step model |
| `BulkInvalidation.KeyListed` | www/handlers/admin/cache.go:69-75 | For clean requests: any key of a tile, in whatever order, is among the keys the loop builds exactly if the tile is listed |
| `BulkInvalidation.DescendantsInvalidated` | www/handlers/admin/cache.go:59-80 | For clean requests, after any run of DeepChildren and no tier failure, under whatever keys the loop builds: every key of exactly the descendants is gone, save at most one missed tile; all other keys keep their entries |
| `BulkInvalidation.StaleKeySurvives` | www/handlers/admin/cache.go:69-75 | For every parameter value that is not settled there is an accepted template and request for which the loop deletes one key of a tile and leaves the entry under another |
| `BulkInvalidation.ServedAgainIffCarried` | www/handlers/admin/cache.go:67-80 | With at least one tier enabled, from every state in which disabled tiers are empty: after the loop, a key it invalidated can be served again without a new response if and only if some goroutine carried a packet for it that can be served |
| `BulkInvalidation.MemHoldsIff` | cache/cache.go:326-375 | Over any run from a state without the key in memory: memory holds it in the end exactly if some step wrote it there and no later step deleted, flushed or evicted it |
| `BulkInvalidation.GoneWhenCompletedIff` | cache/cache.go:350-367 | In any interleaving, when an Invalidate completes: memory holds the key exactly if a write after its deletion from memory lasted; the key is gone exactly if none did and no goroutine carries a value for it |
| `BulkInvalidation.InterleavedInvalidations` | www/handlers/admin/cache.go:69-79 | However invalidations and other requests interleave: each key that no lasting write refilled between its two deletions and nobody carries when its Invalidate completes, with no response accepted since, is gone in the end and was not served since |
| `BulkInvalidation.FetchBetweenDeletes` | cache/cache.go:350-367 | Those two conditions are needed: a Fetch between the two deletions leaves the old value in memory, with the Invalidate succeeded and nothing pending |
| `PrimingPool.StepAdvances` | www/handlers/admin/cache.go:84-193 | Every step keeps the pool's bookkeeping and uses up one step |
| `PrimingPool.Conservation` | www/handlers/admin/cache.go:84-193 | Submitted tiles are queued, with a worker, primed or skipped, each exactly once; success messages and primed tiles are as many |
| `PrimingPool.SendsNeverBlock` | www/handlers/admin/cache.go:87-104 | Neither a job nor a success ever waits for room or meets a closed channel |
| `PrimingPool.NoDeadlock` | www/handlers/admin/cache.go:84-118 | Until the answer is given some goroutine can move, for any number of workers and any failures |
| `PrimingPool.EveryScheduleEnds` | www/handlers/admin/cache.go:84-118 | No schedule exceeds three steps a worker, five a tile and four, and one cannot be continued exactly when the answer is given |
| `PrimingPool.TheAnswer` | www/handlers/admin/cache.go:115-131 | The count is the tiles primed, the status "ok" exactly if all listed ones were; the others were skipped, failed (at most one a worker) or left over, which takes every worker to have returned early |
| `TileWorker.WorkOn` | www/handlers/admin/cache.go:149-191 | Without a URL the tile is skipped; a code other than 200 and 204, a 200 without a body or a failed write fails; the rest succeed and start one cache write under the tile's own key |
| `TileWorker.Worker` | www/handlers/admin/cache.go:146-193 | A worker receives up to its first tile with a URL whose response is refused or cannot be written, and all tiles if there is none; each success starts one cache write under its own tile's key |
| `TileWorker.OutcomesByCode` | www/handlers/admin/cache.go:149-191 | The three outcomes by URL, code, body and write |
| `TileWorker.SuccessesCounted` | www/handlers/admin/cache.go:190-191 | The successes reported are as many as the tiles primed |
| `PrimingJob.JobsAreDone` | www/handlers/admin/cache.go:146-193 | Over every run of the pool, the tiles worked on with success are those primed or about to be reported so |
| `PrimingJob.WritesOfJobs` | www/handlers/admin/cache.go:146-193 | Over every run of the pool, the cache writes its workers start are those of the successes, one each, under a key of the tile and with an accepted response |
| `PrimingJob.OkMeansAllWritten` | www/handlers/admin/cache.go:82-131 | The answer counts the cache writes the workers started, all for primed tiles; when it is "ok" they are for exactly the listed tiles, each under a key of its own and with an accepted response |
| `DeepIntersect.StepAdvances` | tile/tile.go:159-184 | Every step conserves received plus owed tiles and uses up one step |
| `DeepIntersect.EveryScheduleEnds` | tile/tile.go:159-184 | From a tile of zoom 16 or less every schedule ends after a fixed number of steps, with the counter at zero exactly when all goroutines ended, and then the whole enumeration was received |
| `DeepIntersect.EmittedWithin` | tile/tile.go:159-184 | Nothing is sent but descendants that pass the test, none too often |
| `DeepIntersect.FilteredIffMonotone` | tile/tile.go:159-184 | Exactly the passing descendants down to zoom 16 are sent if and only if the test is monotone: a child passes only if its parent does |
| `TileBox.TheMap` | tile/tile.go:186-192 | At every zoom the map's corners are at -180 and 180 degrees and at the first and last fraction of its height |
| `TileBox.EveryPointHasATile` | tile/tile.go:146-192 | At every zoom each point of that map lies in the box, with its corners in the intended order, of a tile of the map |
| `TileBox.ChildrenShareBox` | tile/tile.go:187-192 | Of the box with its corners in the intended order, which the code does not build: a point lies in a tile's box if and only if it lies in a child's |
| `TileBox.ChildWithin` | tile/tile.go:146-155 | A child's corners, as the code computes and passes them, lie within its parent's |
| `TileBox.AsCodedIffMonotone` | tile/tile.go:146-184 | For any test at all on the bounds the code passes: exactly the passing descendants down to zoom 16 are sent if and only if no child passes whose parent does not |
| `TileBox.ExactlyThePassing` | tile/tile.go:146-184 | From a tile of the map, for any test on the bounds the code passes that corners further out pass more easily: exactly the passing descendants down to zoom 16 are sent, each once |
| `TileBox.IntendedIsExact` | tile/tile.go:157-165 | Were the corners in the intended order, the tiles sent would be exactly the descendants whose box meets the geometry |
| `TileBox.IntendedGrows` | tile/tile.go:165 | Meeting the box in the intended order is such a test |
| `TileBox.AsCodedNothingIsSent` | tile/tile.go:146-165 | The box as the code builds it has no points, so nothing is sent |
| `TileBox.AsIntendedIff` | tile/tile.go:146-184 | What the code sends is what was meant exactly if the geometry does not meet the first tile's box |

## Left out

- HTTP routing, middleware, authentication, logging, metrics registration, the command line and configuration loading: plumbing.
- Fetching from the tile server and the singleflight group: the model lets any code, body and headers arrive at any time. Which of the tile server's headers are kept, and building the tile URL, are not part of this model.
- The internals of bigcache and Redis: both are maps. Capacity, TTLs and hash collisions are entries the environment may drop at any moment (memory) or when a TTL is set (Redis); extending a TTL is not visible.
- A tier operation that reports an error is taken to have had no effect; a write or deletion that times out at the client but happens on the Redis server is not part of this model.
- SHA-256: any function with 32-byte results. Nothing is claimed about collisions.
- Failures that make the code call `err.Error()` on a nil error (www/handlers/admin/cache.go:164 and 173) are taken not to occur.
- Several `Cache` instances, building and wiping them, and the read-only statistics: easy members. What a handler goes on to do with a packet Fetch has served is not part of this model; `Packet.SafeToRead` says when it can be read.
- The state machines are over values: goroutine stacks, channels and the WaitGroup are fields of a state, not heap objects, and the slice the collector appends to is read in one step at the return. Go's memory model for that unsynchronised read is not modelled.
- Slicing beyond a packet's length but within its capacity, which Go permits, counts as out of bounds.
- Parameter names are assumed to be free of braces, which the configuration does not check.
- Strings are sequences of characters where Go has bytes; tokens, digits and braces are single bytes in both.
- Workers of the pool share one request context and write their bodies to it; only the outcome of each write is modelled.
- Floating point and trigonometry: longitude is linear over the reals, latitude any strictly decreasing function. A geometry is a set of points.
- `DeepIntersect` from a tile deeper than zoom 16: the test there is for equality, so the descent does not stop; the model starts at zoom 16 or above it. Its receiver, which the repository does not have, is taken to be always ready.
- KeySeparation.SeparatesIff: a gap of digits alone between two coordinates has at most 16 of them, so that the colliding coordinate fits 64 bits; longer runs of digits can happen to separate.
- KeySeparation.KeysSeparateIff: the same bound, with endpoint and parameters filled in. Requests that are not clean are the subject of UncleanKeys.
- UncleanKeys.SeparateInOrderIff: the same bound, and keys built in the same order; in different orders a request that is not clean may have several keys for one tile.
- BulkInvalidation.KeyListed: clean requests only; StaleKeySurvives and UncleanKeys.NumberSwallowed show what others lead to.
- Template.SequentiallyIsOnePass: templates that nest braces are covered only for values that share no character with the tokens, as coordinates do; otherwise a replacement may well complete a token.
- PlainMap.FetchSeesPlainMap: for Redis enabled without a TTL; operations on one key exclude each other as readers and writers do, which the program itself does not enforce.
- FetchLaw.FetchAnswersPlainMap: under the same conditions, and for a Fetch that no other step interrupts; what interleaved fetches meet is PlainMap.FetchSeesPlainMap.
- BulkInvalidation.DescendantsInvalidated: no other goroutine runs during the loop; interleaved invalidations are the subject of InterleavedInvalidations, and what pending goroutines may do afterwards of ServedAgainIffCarried.
