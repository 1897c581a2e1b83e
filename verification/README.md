# treefinder: storage keys and search URLs

treefinder is a small Go batch program that harvests images for a tree
species. For the phrase "quercus lobata" it asks the Google Custom Search API
for three pages of image results, at offsets 0, 10 and 20. It then fetches
every result and uploads it to the S3 bucket `treefinder`. Each upload goes
under a key `validation/<phrase with spaces as underscores>/<file id>.jpg`.
The file id of item `i` on the page at offset `start` is `start + i`.

This project models the part of the program that is pure logic:

- how a phrase and a file id become a storage key (`outputPathFromText`);
- how a phrase, an offset and an API key become a search URL (`queryString`);
- how `searchToS3` gives the items of one page their keys;
- how `main` walks the three offsets.

It proves the following:

- The phrase is rewritten one character at a time and keeps its length.
- Keys and URLs have exactly the format the `fmt.Sprintf` templates produce.
- A key never contains a space.
- The file id, and the offset in a URL, can be read back. So distinct ids give
  distinct keys, and distinct offsets give distinct URLs.
- No key is used twice in a run, as long as no page holds more than the
  10 results the URL asks for.

Modules, one per file:

- `GoInt` (goint.dfy): Go's `int`, taken as 64 bits wide, and its wrap-around on overflow.
- `Decimal` (decimal.dfy): the `%d` rendering, its parser, and both round trips.
- `Strings` (strings.dfy): `strings.ReplaceAll` for one-character arguments,
  and prefix/suffix splitting.
- `Format` (format.dfy): the `%s`/`%d`/`%%` subset of `fmt.Sprintf`.
- `StorageKey` (storage_key.dfy): `outputPathFromText` and its parser.
- `KeyExamples` (examples_keys.dfy): the concrete keys and jobs for "quercus lobata".
- `Query` (query.dfy): `queryString` and its parser.
- `Harvest` (harvest.dfy): the key assignment in `searchToS3` and the page
  loop in `main`.
- `Wrappers` (wrappers.dfy): `Option`.

The model has no I/O. The model receives as parameters what the program gets
from outside:

- the API key, which the program reads from AWS SSM;
- the search service: a function from a URL to either a decoded response or
  a transport failure.

Each upload that `searchToS3` starts in a goroutine is represented by its
`Job`: the storage key and the image link. The per-page fan-out is modelled
as a sequential map over the items.

`queryString` only replaces spaces with `+`. Other characters, `&` and `+`
among them, go into the URL unescaped, and so does the model
(`Query.QueryPhraseSegment`).

## Model

| member | source | states |
|---|---|---|
| `Strings.ReplaceChar` | treefinder.go:106 | `strings.ReplaceAll` with a one-character pattern; its contract is carried by `KeyPhraseSegment` and `QueryPhraseSegment` (length kept, each space replaced, other characters in place), `ReplaceCharRemoves` and `ReplaceCharInverse` |
| `Format.Sprintf` | treefinder.go:139 | the `%s`/`%d`/`%%` part of `fmt.Sprintf`; its contract is carried by `SprintfLiteral`, `SprintfString`, `SprintfInt` and `SprintfThree` |
| `StorageKey.OutputPath` | treefinder.go:136-140 | `outputPathFromText`; its contract is carried by `OutputPathIsSprintf` (exact format), `KeyPhraseSegment`, `OutputPathNoSpace`, `FileIdRoundTrip`/`ParseFileIdSound` (the id is read back) and `DistinctIdsDistinctKeys` |
| `Query.QueryString` | treefinder.go:105-111 | `queryString` with the API key as a parameter; its contract is carried by `QueryStringIsSprintf` (exact format), `QueryPhraseSegment`, `NumIsPageSize`, `StartRoundTrip`/`ParseStartSound` (the offset is read back) and `QueryStringInjective` |
| `GoInt.Wrap` | treefinder.go:65 | a Go `int` sum that stays in the 64-bit range is kept unchanged |
| `GoInt.WrapDistinct` | treefinder.go:63-65 | two sums less than 2^64 apart stay distinct after wrap-around, so `start + i` differs for different `i` in one slice |
| `Decimal.NatToDecimal` | treefinder.go:139 | `%d` of a natural number is a non-empty digit string with no leading zero, and it starts with `0` only for zero |
| `Decimal.IntToDecimal` | treefinder.go:139 | `%d` of an int is non-empty, starts with `-` exactly for negative values and with a digit otherwise, and holds only digits after its first character |
| `Decimal.DecimalRoundTrip` | treefinder.go:139 | reading back the decimal rendering of `n` gives `n` |
| `Decimal.CanonicalRoundTrip` | treefinder.go:139 | every digit string with no superfluous leading zero is the rendering of its own value |
| `Decimal.NatToDecimalInjective` | treefinder.go:139 | different natural numbers have different renderings |
| `Decimal.IntRoundTrip` | treefinder.go:139 | `ParseInt` recovers any int from its `%d` rendering |
| `Decimal.ParseIntCanonical` | treefinder.go:139 | every string `ParseInt` accepts is exactly the `%d` rendering of the value it returns |
| `Decimal.IntToDecimalInjective` | treefinder.go:139 | different ints have different `%d` renderings |
| `Strings.ReplaceCharRemoves` | treefinder.go:106 | after `ReplaceAll(s, " ", "+")` (or `"_"`), no space is left |
| `Strings.ReplaceCharInverse` | treefinder.go:138 | replacing spaces by `_` is undone by replacing `_` by spaces when the phrase had no `_` |
| `Strings.Between` | treefinder.go:139 | a string split into a prefix, a middle and a suffix is their concatenation |
| `Strings.BetweenRoundTrip` | treefinder.go:139 | splitting a concatenation with its known prefix and suffix returns the middle |
| `Format.SprintfLiteral` | treefinder.go:139 | template text without `%` is copied to the output unchanged |
| `Format.SprintfString` | treefinder.go:109 | `%s` writes its string argument verbatim |
| `Format.SprintfInt` | treefinder.go:109 | `%d` writes its integer argument in decimal |
| `Format.SprintfThree` | treefinder.go:107-109 | a template of literal parts around three verbs writes the parts with the three rendered arguments between them |
| `StorageKey.KeyTemplateShape` | treefinder.go:139 | `"%s/%s/%d.jpg"` writes the base, `/`, the phrase, `/`, the id in decimal and `.jpg` |
| `StorageKey.OutputPathIsSprintf` | treefinder.go:136-140 | the key is exactly what the `Sprintf` call writes for `"validation"`, the phrase with spaces as underscores, and the file id |
| `StorageKey.KeyPhraseSegment` | treefinder.go:137-139 | the key starts with `validation/`; the phrase segment has the phrase's length, replaces each space by `_` and keeps every other character in place; a `/` follows it |
| `StorageKey.OutputPathNoSpace` | treefinder.go:138-139 | a key never contains a space, whatever the phrase |
| `StorageKey.FileIdRoundTrip` | treefinder.go:139 | the file id can be read back from the key for the same phrase |
| `StorageKey.ParseFileIdSound` | treefinder.go:139 | every string the key parser accepts is exactly the key of the id it returns |
| `StorageKey.DistinctIdsDistinctKeys` | treefinder.go:136-140 | for a fixed phrase, distinct file ids give distinct keys |
| `StorageKey.PhrasesMayShareKeys` | treefinder.go:138 | keys are unique per phrase only: "a b" and "a_b" get the same key for id 0 |
| `KeyExamples.ExampleKeysAtOffset0` | treefinder.go:136-140 | the keys of files 0 and 1 for "quercus lobata" are `validation/quercus_lobata/0.jpg` and `.../1.jpg` |
| `KeyExamples.ExampleKeysAtOffset10` | treefinder.go:136-140 | the keys of files 10 and 11 for "quercus lobata" are `validation/quercus_lobata/10.jpg` and `.../11.jpg` |
| `KeyExamples.ExamplePageAtOffset0` | treefinder.go:63-68 | a page of two results (links "a", "b") at offset 0 for "quercus lobata" yields exactly two jobs: `validation/quercus_lobata/0.jpg` for "a", then `.../1.jpg` for "b" |
| `KeyExamples.ExamplePageAtOffset10` | treefinder.go:63-68 | the same page at offset 10 yields exactly the jobs `validation/quercus_lobata/10.jpg` for "a", then `.../11.jpg` for "b" |
| `Query.QueryBaseShape` | treefinder.go:107-109 | the URL template's verbs take the phrase, the offset and the key, in that order |
| `Query.QueryStringIsSprintf` | treefinder.go:105-111 | the URL is exactly what the `Sprintf` call writes for the phrase with spaces as `+`, the offset and the API key |
| `Query.NumIsPageSize` | treefinder.go:107 | the template's `num` parameter is the page size 10 |
| `Query.QueryPhraseSegment` | treefinder.go:106-109 | the phrase segment of the URL has the phrase's length, turns each space into `+`, keeps every other character, and contains no space |
| `Query.StartRoundTrip` | treefinder.go:107-109 | the offset is written in decimal after `&start=` and can be read back from the URL |
| `Query.ParseStartSound` | treefinder.go:107-109 | every URL the offset parser accepts is exactly the URL for the offset it returns |
| `Query.QueryStringInjective` | treefinder.go:105-111 | for a fixed phrase and key, different offsets give different URLs |
| `Harvest.AssignKeys` | treefinder.go:63-68 | a page of `k` items yields exactly `k` jobs in item order; job `i` has the key of file `start + i` (a Go `int` sum) and item `i`'s link; the keys of one page are pairwise distinct |
| `Harvest.SearchToS3` | treefinder.go:56-71 | one page: its URL is the query for `start`; a transport failure is reported; otherwise the jobs are the key assignment of the decoded items |
| `Harvest.PageKeysDisjoint` | treefinder.go:44-45 | with offsets `10*p` for `p` below 3 and at most 10 items per page, different (page, item) positions get different keys |
| `Harvest.PagesKeysDistinct` | treefinder.go:44-47 | across all pages of a run whose pages hold at most 10 items, no key is reused |
| `Harvest.Run` | treefinder.go:41-54 | page `p` is requested at offset `10*p`, at most 3 pages, all 3 unless a transport failure stops the run at the failing page; each answered page gets its keys; with at most 10 items per page no key repeats |

## Left out

- `getAPIKey` (treefinder.go:113-134) is an AWS SSM call. The key is a parameter of `Query.QueryString` and `Harvest.Run`, one key for the whole run. The program fetches it again for every query, and its failure paths (logging, then a nil dereference) are not modelled.
- `responseFromURL` (treefinder.go:142-151) is an HTTP GET with a 10-second timeout, followed by JSON decoding. It is modelled only by its result, a `Harvest.Fetch`. `log.Fatal` on a transport error becomes `TransportError`, which ends `Harvest.Run`. The program ignores the error returned by `Decode`, so a decode failure shows up as whatever items were decoded.
- `uploadImageToS3` and `s3Handler.UploadFile` (treefinder.go:74-103) are S3 SDK calls. They are foreign I/O; an upload is represented by its `Harvest.Job`.
- `urlToS3Object` (treefinder.go:153-166) is an HTTP fetch run in a goroutine. It is foreign I/O, and its fetch-failure branch only logs.
- The `sync.WaitGroup` barriers (treefinder.go:42, 53, 57-71) exist for concurrency. The per-page fan-out is a sequential map in `Harvest.AssignKeys`.
- `GoInt.Wrap`: Go's `int` is taken as 64 bits wide. The program names no target platform, and on a 32-bit platform `int` wraps at 2^32 instead. The ids a run uses are at most 29, so neither width wraps in practice.
- `fmt.Print`/`fmt.Println` logging, and the commented-out alternative phrases in `main`, are not modelled. The phrase is a parameter of `Harvest.Run`.
- `Format.Sprintf` covers only `%s`, `%d` and `%%`, with arguments that match their verbs. Both templates in the program are of that kind. Go's `%!verb(...)` diagnostics for mismatched or missing arguments are not modelled.
- `Strings.ReplaceChar` works on characters, while Go's `strings.ReplaceAll` works on UTF-8 bytes. Both replace a single ASCII character, and a space byte never occurs inside a multi-byte UTF-8 sequence, so the two agree.
