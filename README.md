# iaudit document ingestion, modelled in Dafny

This project models the decision logic of the iaudit document-ingestion
service, which is written in Rust. An upload arrives as a multipart form. Its
file name and display name are validated into a domain request, and a JSON
payload object is built from the form fields and the scope path. The file is
then:

1. converted, when it is a `.doc`;
2. read to text by the reader that fits its kind;
3. split into articles;
4. embedded, one vector per article;
5. stored as points in a Qdrant collection.

Splitting follows a fallback chain. The local "regulation" chunker runs first.
It finds the `第…条` (article) and `第…章` (chapter) markers, sorts them by
offset and cuts the text at each one. The remote splitter runs only when the
regulation chunker fails. When both fail, every error chain goes into one
message.

Modules, one per source file or concern:

- `Wrappers`, `Strings`, `Json`: `Option`/`Result`, the string functions the
  source relies on (`trim`, ASCII `to_lowercase`, `split`, `rsplit(..).next()`,
  decimal formatting), and `serde_json::Value`.
- `ErrChain`: errors with a `source()` chain, anyhow's `context`, and the
  `errorchain` Debug writer.
- `Blunder`: `ParseError`, `DocumentError`, their messages, Debug output and
  HTTP status.
- `Setting`: the `APP_ENVIRONMENT` selection.
- `Generally`: the extension, document-name and upload-file parsing.
- `Transformer`: the upload form converted to the domain request.
- `Business`: the `Document` payload object. It is a class, because the
  source updates the object in place.
- `Markers`: the two marker regular expressions, each as an exact predicate
  on the text, plus `find_iter` as a left-to-right scan.
- `Chunker`: the regulation chunker. It merges the marker lists, sorts them
  in place on an array (`sort_by`), walks the sections with a loop, and
  applies the threshold.
- `Pipeliner`: conversion and extraction requests, the strategy fallback
  `try_methods`, `format_errors`, `document_splitting`, and the embedding
  loop `document_embedding`. That function takes the `Document` by value
  and updates it; the model makes the owned value an object the caller can
  see, so the payload after the loop can be stated.
- `Qdrant`: the wire-to-payload value conversion, the filter builder,
  collection info and count replies, collection creation, and the
  payload-to-point conversion of `async_upsert_points`.

Remote services are parameters: the word-to-pdf converter, the readers, the
splitter, the embedder, and the Qdrant server's replies. The MurmurHash of the
point id is a parameter too. Each operation is stated for every reply it can
receive, including every error reply.

## Model

| member | source | states |
|---|---|---|
| ErrChain.Error.Context | src/service/document/pipeliner.rs:102 | a context becomes the new top message, and the whole former chain becomes its causes |
| ErrChain.WithContext | src/service/document/pipeliner.rs:193-197 | `with_context` passes a success through unchanged; a failure gets the context on top of its full chain |
| ErrChain.Reported | src/blunder/errchain.rs:9-17 | the causes reported are the longest prefix of the source chain with no cause whose text equals the error's own; the cause after that prefix, if any, repeats the error's text |
| ErrChain.WriteErrorChain | src/blunder/errchain.rs:4-20 | the loop writes one "Caused by" line per reported cause, in order, and returns Ok exactly when the formatter accepts all of them; when a write fails, only the lines before it are written |
| ErrChain.NoSourceWritesNothing | src/blunder/errchain.rs:9-10 | an error without a source writes nothing |
| ErrChain.AllCausesWritten | src/blunder/errchain.rs:9-17 | when no cause repeats the error's text, every cause is written, in chain order |
| ErrChain.RepeatedFirstCauseWritesNothing | src/blunder/errchain.rs:12-14 | a first cause equal to the error's text stops the walk before anything is written |
| Blunder.ParseMessage | src/blunder/document.rs:8-18 | every parse error has a non-empty message |
| Blunder.ParseMessagesDistinct | src/blunder/document.rs:8-18 | two parse errors have the same message exactly when they are the same error |
| Blunder.ParseAsError | src/blunder/document.rs:8-18 | a parse error displays as its message and has no source |
| Blunder.StatusCode | src/blunder/document.rs:59-64 | 400 exactly for a validation error, 500 exactly for an unexpected error |
| Blunder.ValidationDisplay | src/blunder/document.rs:28-29 | a validation error displays as the "文档解析错误: " prefix followed by the parse message |
| Blunder.UnexpectedIsTransparent | src/blunder/document.rs:31-32 | an unexpected error displays and debugs exactly as the error it wraps |
| Blunder.ParseDebugIsEmpty | src/blunder/document.rs:20-24 | the Debug output of a parse error is empty, because it has no cause |
| Blunder.ValidationDebug | src/blunder/document.rs:35-39 | the Debug output of a validation error is one "Caused by" line naming its parse error |
| Setting.AsStr | src/configuration/setting.rs:17-24 | each environment's name is lowercase |
| Setting.ParseEnvironment | src/configuration/setting.rs:26-39 | accepted exactly when the lowercased input is "local" or "production", with the variant of that name; otherwise the error quotes the input unchanged |
| Setting.EnvironmentFromVar | src/configuration/setting.rs:55-58 | a variable that is unset or not valid Unicode selects Local; any other value is parsed |
| Setting.EnvironmentFileName | src/configuration/setting.rs:60 | the configuration file is the environment's name followed by ".yaml" |
| Setting.ParseAsStr | src/configuration/setting.rs:17-39 | every environment parses back from its own name |
| Setting.ParseIgnoresCase | src/configuration/setting.rs:30 | two inputs that lowercase alike parse alike |
| Setting.RejectionQuotesInput | src/configuration/setting.rs:33-36 | a rejected input begins the error message as given, not lowercased |
| Setting.ExampleUpperCaseAccepted | src/configuration/setting.rs:30-32 | "PRODUCTION" and "Local" are accepted |
| Generally.ExtensionName | src/domain/request/document/generally.rs:24-29 | each kind's suffix is lowercase |
| Generally.ParseExtension | src/domain/request/document/generally.rs:20-33 | accepted exactly when the lowercased text is one of the five suffixes, whose kind it yields; otherwise InvalidExtension |
| Generally.ExtensionRoundTrip | src/domain/request/document/generally.rs:20-33 | every kind parses back from its suffix in any letter case |
| Generally.ParseName | src/domain/request/document/generally.rs:39-47 | the name is kept unchanged; the extension is the parse of the text after the last '.'; the only error is InvalidExtension |
| Generally.NeverMissingExtension | src/domain/request/document/generally.rs:42-44 | `rsplit('.').next()` always yields a piece, so MissingExtension never occurs |
| Generally.TrailingDotRejected | src/domain/request/document/generally.rs:42-45 | a name ending in '.' has an empty extension and is rejected |
| Generally.DotlessNameIsExtension | src/domain/request/document/generally.rs:42-45 | a name without '.' is parsed whole as the extension |
| Generally.BareSuffixParses | src/domain/request/document/generally.rs:39-47 | a bare suffix is a valid name of its own kind |
| Generally.ExampleBareWord | src/domain/request/document/generally.rs:39-47 | "report" is rejected with InvalidExtension |
| Generally.ExampleUpperCaseSuffix | src/domain/request/document/generally.rs:39-47 | "Audit.Report.DOCX" is a Docx name, kept as given |
| Generally.ParseFile | src/domain/request/document/generally.rs:69-76 | a temp file without a name gives MissingFileName; otherwise it succeeds exactly when its name parses, keeping the file |
| Generally.ParseExtensionOfLower | src/domain/request/document/generally.rs:41-45 | parsing lowercases anyway, so lowercasing first changes nothing |
| Generally.LowerLastPiece | src/domain/request/document/generally.rs:41-43 | lowercasing before or after cutting at the last '.' gives the same text |
| Transformer.ToDomain | src/dto/transformer/document/thinktank.rs:13-28 | succeeds exactly when the temp file and the form's name field both parse; the file's error comes first; the text fields are carried over renamed |
| Transformer.ToDomainErrors | src/dto/transformer/document/thinktank.rs:16-19 | a conversion fails only with MissingFileName, when the temp file has no name, or with InvalidExtension |
| Transformer.FileCheckedFirst | src/dto/transformer/document/thinktank.rs:18-19 | with both the file and the name invalid, the file's error is reported |
| Transformer.NameFromForm | src/dto/transformer/document/thinktank.rs:18-19 | the domain name comes from the form field even when the temp file's own name differs |
| Business.AreaTags | src/domain/business/document.rs:18-21 | the tags are non-empty and contain no '/' |
| Business.TagMap | src/domain/business/document.rs:22-24 | every tag key is set to the JSON number 1 |
| Business.TagMapSnoc | src/domain/business/document.rs:22-24 | adding a segment sets that one key to 1, or changes nothing when the segment is empty |
| Business.Document.From | src/domain/business/document.rs:8-27 | the new payload is the fixed fields with each non-empty scope-path segment set to 1 |
| Business.SetTags | src/domain/business/document.rs:18-24 | the loop over the segments leaves the payload overwritten by the tag map of all segments |
| Business.Document.Update | src/domain/business/document.rs:30-34 | the payload becomes the merge of the old payload and the value |
| Business.Merge | src/domain/business/document.rs:30-34 | merging an object gives the old keys plus the object's keys; merging a non-object changes nothing |
| Business.MergeOverwrites | src/domain/business/document.rs:31-32 | after a merge, each key of the merged object holds the object's value |
| Business.Document.Value | src/domain/business/document.rs:37-39 | the value is an object holding exactly the current payload |
| Business.AreaSegmentsAreTags | src/domain/business/document.rs:18-24 | every non-empty segment of the scope path is a key mapped to 1 |
| Business.NoEmptyKey | src/domain/business/document.rs:21 | the empty string is never a key |
| Business.InitialKeys | src/domain/business/document.rs:10-24 | the keys are the six fixed keys plus the tags, and nothing else |
| Business.FixedFieldsKept | src/domain/business/document.rs:10-24 | a fixed key keeps its upload field unless a tag of the same name overwrites it; every tag key holds 1 |
| Business.MergeIdempotent | src/domain/business/document.rs:30-34 | merging the same value twice is the same as merging it once |
| Business.MergeKeepsOtherKeys | src/domain/business/document.rs:31-32 | a merge changes only the keys of the merged object |
| Business.SnapshotThenUpdate | src/domain/business/document.rs:30-39 | a copy taken by `value()` is not affected by later updates |
| Markers.NumeralEnd | src/service/document/pipeliner.rs:22 | the numeral run is maximal: every character in it is a Chinese numeral, and the next one is not |
| Markers.DigitEnd | src/service/document/pipeliner.rs:22 | the digit run is maximal: every character in it is a `\d` digit, and the next one is not |
| Markers.PatternMatchIsMarker | src/service/document/pipeliner.rs:20-30 | every text the pattern matches at a position is the marker found there, ending where the marker ends |
| Markers.MarkerIsPatternMatch | src/service/document/pipeliner.rs:20-30 | every marker found is matched by the pattern |
| Markers.NumeralRunIsMaximal | src/service/document/pipeliner.rs:22 | the numeral run the pattern takes is the maximal one |
| Markers.DigitRunIsMaximal | src/service/document/pipeliner.rs:22 | the digit run the pattern takes is the maximal one |
| Markers.NoMarkerInside | src/helper/regular.rs:5-6 | no marker of either kind starts strictly inside another marker |
| Markers.KindsNeverShareStart | src/service/document/pipeliner.rs:20-30 | an article marker and a chapter marker never start at the same position |
| Markers.Scan | src/helper/regular.rs:4-9 | `find_iter` yields strictly ascending positions, each one a marker |
| Markers.ScanComplete | src/helper/regular.rs:4-9 | `find_iter` yields every marker at or after its starting position |
| Markers.MatchesAreMarkers | src/helper/regular.rs:4-9 | a position is reported exactly when a marker starts there; the positions are strictly ascending and inside the text |
| Chunker.Serialize | src/service/document/pipeliner.rs:44-52 | an article serialises to an object with exactly the keys article, chapter and doctype |
| Chunker.SerializeRoundTrip | src/service/document/pipeliner.rs:37-52 | reading the serialised form back gives the same article |
| Chunker.AsSections | src/service/document/pipeliner.rs:219-226 | each reported offset becomes a section of the given kind, in order |
| Chunker.MergeSections | src/service/document/pipeliner.rs:205-213 | the merge has as many sections as its two inputs together |
| Chunker.MergeSectionsKeeps | src/service/document/pipeliner.rs:205-213 | merging keeps every section and adds none |
| Chunker.MergeSectionsSorted | src/service/document/pipeliner.rs:213 | two strictly ascending lists without a common offset merge into a strictly ascending list |
| Chunker.HeadBelowMerge | src/service/document/pipeliner.rs:213 | a section below both lists stays below their merge |
| Chunker.SortByOffset | src/service/document/pipeliner.rs:213 | the in-place sort leaves the array ascending by offset, with the same sections |
| Chunker.MinFrom | src/service/document/pipeliner.rs:213 | the index found holds a smallest offset among the unsorted sections |
| Chunker.SelectionStep | src/service/document/pipeliner.rs:213 | swapping the smallest remaining section into place grows the sorted prefix and keeps the sections |
| Chunker.SortedIsUnique | src/service/document/pipeliner.rs:213 | an ascending list holding the same sections as a strictly ascending one is that list, so any sort gives the merge |
| Chunker.HeadsAgree | src/service/document/pipeliner.rs:213 | two such lists start with the same section |
| Chunker.TailsSameSections | src/service/document/pipeliner.rs:213 | removing a common first section leaves equal multisets |
| Chunker.SpanEnd | src/service/document/pipeliner.rs:234-235 | a section's span ends at or after its start and inside the text |
| Chunker.LastChapter | src/service/document/pipeliner.rs:237-239 | the chapter in force is the last chapter section before the given one, if there is any |
| Chunker.ArticleCount | src/service/document/pipeliner.rs:240-255 | at most one article per section |
| Chunker.ArticlesUpTo | src/service/document/pipeliner.rs:229-259 | the walk over the first n sections emits exactly one article per article section |
| Chunker.ConstructDocumentByArticle | src/service/document/pipeliner.rs:229-259 | the loop over the sections returns exactly the reference walk's articles |
| Chunker.WalkStep | src/service/document/pipeliner.rs:234-256 | each step cuts at the next section, or at the end for the last one; a chapter section becomes the chapter in force; an article section leaves it unchanged |
| Chunker.ArticlePerSection | src/service/document/pipeliner.rs:240-255 | the m-th article comes from the m-th article section |
| Chunker.OnlyChaptersGiveNothing | src/service/document/pipeliner.rs:236-239 | chapter sections never produce an article |
| Chunker.ArticlesAreTrimmed | src/service/document/pipeliner.rs:235-251 | every article's text is trimmed and its document type is empty |
| Chunker.ChapterIsEarlierChapter | src/service/document/pipeliner.rs:237-239 | an article's chapter is "" or the text of the last chapter section before it |
| Chunker.KindsDisjoint | src/service/document/pipeliner.rs:206-209 | an article offset and a chapter offset never coincide |
| Chunker.SectionsSorted | src/service/document/pipeliner.rs:206-213 | the merged sections are strictly ascending, inside the text, and hold both lists |
| Chunker.InAsSections | src/service/document/pipeliner.rs:219-226 | a section is listed exactly when its kind matches and its offset was reported |
| Chunker.SectionsAreMarkers | src/service/document/pipeliner.rs:205-213 | the sections are exactly the markers of the text, each with its kind |
| Chunker.SplittingRegulationDocument | src/service/document/pipeliner.rs:201-216 | fails, with "章节条款总数少于{threshold}个", exactly when there are fewer markers than the threshold; otherwise returns the walk over the sorted markers |
| Chunker.ChaptersOnlyYieldNothing | src/service/document/pipeliner.rs:205-215 | meeting the threshold with chapter markers only gives no articles, not an error |
| Pipeliner.FileName | src/service/document/pipeliner.rs:66 | a file name is the path's '/'-free tail |
| Pipeliner.FileStem | src/service/document/pipeliner.rs:66 | the stem is a prefix of the name, and it is non-empty when the name is |
| Pipeliner.WithExtension | src/service/document/pipeliner.rs:66 | a path without a file name is unchanged; otherwise the final component becomes its stem, '.', and the new extension |
| Pipeliner.WithExtensionKeepsDirectory | src/service/document/pipeliner.rs:66 | the directory part is kept, and the new path ends in '.' and the extension |
| Pipeliner.NewNameSplits | src/service/document/pipeliner.rs:66 | a name built as stem + '.' + ext has that stem |
| Pipeliner.FileNameOfJoined | src/service/document/pipeliner.rs:66 | the file name of a directory followed by a '/'-free name is that name |
| Pipeliner.ConvertedName | src/service/document/pipeliner.rs:66 | the converted file is named stem + ".pdf" and keeps the original stem |
| Pipeliner.WithExtensionJoin | src/service/document/pipeliner.rs:66 | `with_extension` is the directory part followed by stem + '.' + ext |
| Pipeliner.StemHasNoSlash | src/service/document/pipeliner.rs:66 | a stem of a '/'-free name is '/'-free |
| Pipeliner.DirEndsWithSlash | src/service/document/pipeliner.rs:66 | the directory part is empty or ends in '/' |
| Pipeliner.ConvertRequest | src/service/document/pipeliner.rs:60-69 | a request goes to the word-to-pdf converter exactly for a `.doc` file |
| Pipeliner.DocumentConvertor | src/service/document/pipeliner.rs:54-70 | a non-`.doc` path is returned as is; for a `.doc`, a converter error is returned, and a success gives the path with extension "pdf" |
| Pipeliner.OnlyDocIsConverted | src/service/document/pipeliner.rs:60-69 | for any other kind, nothing is sent and the converter's answer does not matter |
| Pipeliner.ExtractorRequest | src/service/document/pipeliner.rs:72-89 | xls/xlsx go to the table reader (readmode "table", sheet ""); doc/pdf go to the pdf reader; docx goes to the docx reader |
| Pipeliner.ConvertedDocReadAsPdf | src/service/document/pipeliner.rs:54-89 | a converted `.doc` is read by the pdf reader under its new ".pdf" name |
| Pipeliner.FormatErrorsMentionsAll | src/service/document/pipeliner.rs:312-324 | every message of every error's chain appears in the formatted text |
| Pipeliner.FormatSingleError | src/service/document/pipeliner.rs:312-324 | a single error without causes formats as its bare message |
| Pipeliner.SplitterRequest | src/service/document/pipeliner.rs:280-284 | the splitter receives the whole text under the single key "content" |
| Pipeliner.SplittingRecurrenceDocument | src/service/document/pipeliner.rs:275-293 | the splitter's answer to the request for this text decides: its error is returned; otherwise one article per slice, in order, with an empty chapter and type |
| Pipeliner.Call | src/service/document/pipeliner.rs:193-197 | each strategy returns its chunker's result, with a failure wrapped in its own context |
| Pipeliner.ErrorsOf | src/service/document/pipeliner.rs:305-309 | one error per failed outcome |
| Pipeliner.Outcomes | src/service/document/pipeliner.rs:295-310 | outcome i is the result of calling strategy i |
| Pipeliner.TryMethods | src/service/document/pipeliner.rs:295-310 | the first success is returned after calling only the strategies up to it; when every strategy fails, all are called and the error message formats all their chains |
| Pipeliner.SplittingPlainDocument | src/service/document/pipeliner.rs:166-178 | the regulation result is used when it succeeds, otherwise the splitter's slices; when both fail, both chains are reported in that order |
| Pipeliner.Tagged | src/service/document/pipeliner.rs:98-121 | tagging keeps each article's text and chapter and sets its type |
| Pipeliner.SplittingTableDocument | src/service/document/pipeliner.rs:156-163 | the table splitter returns no articles |
| Pipeliner.DocumentSplitting | src/service/document/pipeliner.rs:91-123 | spreadsheets yield no articles; other files take the regulation articles, or else the splitter's, tagged "plain"; when both fail, the error carries the "Failed to splitting plain document" context |
| Pipeliner.ArticleFieldsContent | src/service/document/pipeliner.rs:134-137 | an article's merge adds the keys article, chapter, doctype and filepath with the article's values and the path, and keeps every other key's value |
| Pipeliner.DocumentEmbedding | src/service/document/pipeliner.rs:125-153 | succeeds exactly when every embedding request succeeds; point i has the hashed id, the vector and the payload after article i; a failure is the first failed request, with the path in its context |
| Pipeliner.SameTextSameId | src/service/document/pipeliner.rs:139 | two articles with the same text in one upload get the same point id |
| Pipeliner.PayloadCarriesArticle | src/service/document/pipeliner.rs:134-144 | point i's payload carries article i's own fields and the file path |
| Pipeliner.OtherKeysUntouched | src/service/document/pipeliner.rs:134-144 | keys other than the four an article writes keep their value from the initial payload |
| Qdrant.DistanceIntoBijective | src/database/qdrant.rs:30-39 | the four distances map one-to-one onto the four metrics |
| Qdrant.FromWire | src/database/qdrant.rs:52-71 | each scalar kind maps to its variant, and null or missing to Not; a struct keeps its keys and a list its length |
| Qdrant.FromWireKeepsPaths | src/database/qdrant.rs:59-67 | the conversion keeps every key and index path at every depth |
| Qdrant.FromWireStruct | src/database/qdrant.rs:59-64 | each struct field is converted recursively |
| Qdrant.FromWireList | src/database/qdrant.rs:65-67 | each list item is converted recursively |
| Qdrant.PayloadFromWire | src/database/qdrant.rs:268-278 | a payload keeps its keys, each value converted |
| Qdrant.PayloadsFromWire | src/database/qdrant.rs:255-279 | one payload per point, in order |
| Qdrant.ScoredFromWire | src/database/qdrant.rs:329-362 | one scored payload per hit, in order, each keeping its score |
| Qdrant.NewFilter | src/database/qdrant.rs:76-78 | a new filter has no conditions |
| Qdrant.MustFilter | src/database/qdrant.rs:84-87 | sets `must` and leaves the other parts unchanged |
| Qdrant.MustNotFilter | src/database/qdrant.rs:89-92 | sets `must_not` and leaves the other parts unchanged |
| Qdrant.ShouldFilter | src/database/qdrant.rs:94-97 | sets `should` and leaves the other parts unchanged |
| Qdrant.MinShouldFilter | src/database/qdrant.rs:99-102 | sets `min_should` and leaves the other parts unchanged |
| Qdrant.SetterOverwrites | src/database/qdrant.rs:84-102 | a second call to a setter replaces the first |
| Qdrant.SettersCommute | src/database/qdrant.rs:84-102 | setters of different parts commute |
| Qdrant.FilterFromNew | src/database/qdrant.rs:73-103 | every filter can be built from a new one with the four setters |
| Qdrant.StatusOf | src/database/qdrant.rs:230 | the `status()` getter gives the raw number when it names a known status, and 0 otherwise |
| Qdrant.AsyncCollectionInfo | src/database/qdrant.rs:221-238 | a transport error is returned; a missing result is an Internal "collection info not found" error; otherwise the getter's status and the two counts, an absent count reading as 0 |
| Qdrant.CountRequestFor | src/database/qdrant.rs:240-253 | the count is requested as exact, with the given collection and filter |
| Qdrant.AsyncCount | src/database/qdrant.rs:240-253 | a transport error is returned; a missing result is an Internal "count result is missing" error; otherwise the count |
| Qdrant.BareInfoReadsAsZeros | src/database/qdrant.rs:228-233 | a present body with no counts and an unknown status reads as status 0 with zero counts, not as an error |
| Qdrant.MissingBodyIsInternal | src/database/qdrant.rs:221-253 | both missing-result cases are Internal errors |
| Qdrant.CreateCollectionRequestFor | src/database/qdrant.rs:199-215 | the collection is created with the given size, the converted metric, and one default segment |
| Qdrant.ToPointStruct | src/database/qdrant.rs:286-294 | a point converts exactly when its payload is an object; otherwise it fails with that payload |
| Qdrant.CollectPoints | src/database/qdrant.rs:286-294 | all points convert exactly when every payload is an object, in order; otherwise the first bad payload's error |
| Qdrant.UpsertRequestFor | src/database/qdrant.rs:281-297 | the upsert goes to the given collection without waiting and carries one point per input, in order, each with its own id, vector and payload entries; otherwise the conversion error |
| Qdrant.AsyncUpsertPoints | src/database/qdrant.rs:281-297 | a conversion error is returned before anything is sent; otherwise the server's reply |
| Qdrant.OneBadPayloadSendsNothing | src/database/qdrant.rs:286-294 | one non-object payload fails the whole upsert whatever the server would answer |
| Strings.Trim | src/service/document/pipeliner.rs:235 | the trimmed text is the input without its leading and trailing white space |
| Strings.TrimIdempotent | src/service/document/pipeliner.rs:235 | trimming twice is trimming once |
| Strings.Lower | src/domain/request/document/generally.rs:41 | lowercasing keeps the length and maps each character on its own |
| Strings.LowerIdempotent | src/domain/request/document/generally.rs:24 | lowercasing twice is lowercasing once |
| Strings.Split | src/domain/business/document.rs:20 | splitting yields at least one piece |
| Strings.SplitSepFree | src/domain/business/document.rs:20 | no piece contains the separator |
| Strings.SplitSnoc | src/domain/business/document.rs:20 | appending a separator starts a new empty piece; appending any other character extends the last piece |
| Strings.JoinSplit | src/domain/business/document.rs:20 | joining the pieces with the separator gives the input back |
| Strings.LastPiece | src/domain/request/document/generally.rs:42-43 | the last piece is a separator-free suffix, preceded by the separator when it is not the whole text |
| Strings.LastPieceIsLastSplit | src/domain/request/document/generally.rs:42-43 | `rsplit(..).next()` is the last piece of `split` |
| Strings.NatToString | src/service/document/pipeliner.rs:211 | the threshold is written as decimal digits without a leading zero |
| Strings.DecimalRoundTrip | src/service/document/pipeliner.rs:211 | reading the written decimal back gives the number |

## Left out

- The HTTP handlers, multipart extraction, the file system, the database
  pool, the clocks and logging are not modelled. File persistence
  (`DocumentFile::persist`) and the configuration builders other than the
  environment selection are left out too. These are I/O.
- The remote proxies are not modelled; each is a parameter. This covers the
  word-to-pdf converter, the three readers, the splitter and the embedder.
  Their requests are modelled, their behaviour is not.
- The Qdrant server is not modelled; its replies are parameters. Listing and
  deleting collections, deleting points (by id or by filter, both sent with
  `wait(false)`), and the request side of getting and searching points (the
  limit, offset, score threshold, filter and `with_payload(true)`) are not
  modelled. For getting and searching, only the reply mappings are modelled.
- The numbers of the `CollectionStatus` enum come from the qdrant-client
  crate, which is not part of this model. They are a parameter (`known`) of
  `Qdrant.AsyncCollectionInfo`, and an unknown number reads as the enum's
  default, 0.
- MurmurHash (`cipher::murmurhash64int`) is a parameter. Only its inputs (the
  upload id followed by the article text) are modelled.
- Floating-point vectors and scores are opaque bit patterns.
- Offsets are character indices, not the byte offsets Rust's `regex` reports.
  The cut points name the same characters either way.
- The marker regular expressions are modelled as exact predicates on the text,
  not through a general regex engine. `\d` is the ASCII digits plus the
  fullwidth digits U+FF10 to U+FF19. Rust's `\d` also includes the other
  Unicode decimal digits.
- `to_lowercase` is modelled for ASCII letters only. Rust lowercases all of
  Unicode.
- A path is text with '/' separators. Rust's `Path` normalisation (a trailing
  '/', '.' components, non-UTF-8 names) is not modelled, and neither is
  Windows separator handling.
- Pipeliner.DebugPath: the `{:?}` form of a path is modelled as the path in
  double quotes, without Rust's escaping of quotes, backslashes and control
  characters.
- Pipeliner.DocumentExtractor: stated without its own contract. It is the
  reader parameter applied to `ExtractorRequest`, and its properties are those
  of that request.
- Pipeliner.SplittingTableDocument: the source's table splitter is a stub that
  returns no articles, and the model states that.
- Pipeliner.DocumentSplitting: the "table" tag and the error context of the table
  branch are not stated, because the stub never fails.
- Markers.Scan: "leftmost-first" is modelled only for these two patterns. Each
  match is maximal and cannot start inside an earlier match, which is the
  property the search needs here.
