# katsdpdata trawler and archive core, modelled in Dafny

katsdpdata moves MeerKAT observation products from a staging buffer into an
archive. Along the way it builds a metadata record for each product. This
project models the logic that does that and proves properties of the model.

- **Trawlers** (`scripts/vis_trawler.py`, `katsdpfilewriter/scripts/vis_trawler.py`,
  `katsdptrawler`) classify the directories under the trawl root into capture
  blocks and capture streams. They read the `complete` and `failed` tokens, stage
  a bounded number of files per pass, and upload them to the object store. A
  local file is deleted only once the bytes uploaded equal its size.
- **Product handler** (`katsdpdata/prod_handler.py`) holds the per-product
  transfer state machine (CREATED, TRANSFERRING, RECEIVED, RESTAGING, RESTAGED,
  RECREATED, ARCHIVED, FAILED). It also covers discovery and staging limits, the
  pruning of capture blocks that are prefixes of capture streams, and the split
  of uploads over workers.
- **Metadata** (`met_handler.py`, `met_extractors.py` in both generations,
  `meerkat_product_extractors.py`, `met_detectors.py`) covers the archive record:
  its core keys, its original and inferred references, its transfer status, and
  the extractor factories. Extraction runs only once, and the key/value XML
  serialisation has one `keyval` per key.
- **Flag writer** (`katsdpflagwriter/scripts/flag_writer.py`) keeps a bounded
  cache of flag fragments. Each entry counts its fragments against the number
  expected. A completed dump is stored, and the oldest entries are evicted.
- **Tape library** (`katsdptape/katsdptape/tapeinterface.py`,
  `tape_interface/src/tape_archive.py`) keeps a tape, slot, drive and magazine
  database. It is refreshed from the robot's status report. Load, unload,
  rewind, tar and read change the drive states and counters, and the model
  records the commands issued to the robot.
- **Smaller helpers**: Solr and metadata-search query building, key redaction
  and the bucket policy, the telescope and AR1 component models, the HDF5 frame
  append shape, celery workflow queue routing, and the failed-directory report.

How the model is built:

- Solr, S3, SQLite and the filesystem are plain maps and sequences.
- Anything the code takes from outside is an oracle value carried in the model's
  datatypes. This covers katdal and telstate reads, time formatting, md5, `du`,
  `mtx` and `lsscsi` output.
- Python dict iteration order is a parameter wherever the output depends on it.
- Objects whose fields the code updates are classes whose methods are proved
  against step functions on values. The properties are proved as lemmas about
  those functions.
- Where the code as written cannot do what it evidently means to (an
  undefined method, a constructor called with too few arguments, a test that
  never holds), an as-written member shows what the code does, and a
  corrected member models the intended behaviour. The "## Findings" table
  pairs them. Model rows that describe a corrected member say "corrected".
  The trawl of `scripts/vis_trawler.py` carries a flag that selects the ingest
  as written or corrected.

Files: one module per source file, plus shared helpers `Wrappers` (Option and
Result), `Strs` (string and path helpers), `Metadata` (metadata values and
records), `Slicing` (the `[i::n]` partition) and `FileScan` (the shared file
classification).

## Model

| member | source | states |
|---|---|---|
| Utilities.MakeBotoDict | katsdpdata/utilities.py:11-16 | the host and port come from the arguments; the connection is never secure and uses the ordinary (path-style) calling format |
| Utilities.RedactKey | katsdpdata/utilities.py:52-54 | the redacted key starts with the key's first three characters and ends with its last three, with exactly the twelve '#' between; its length is twice min(3, length) plus 12 |
| Utilities.RedactShowsEnds | katsdpdata/utilities.py:52-54 | a key of six or more characters becomes 18 characters: its first three, the mask, its last three |
| Utilities.RedactShortKey | katsdpdata/utilities.py:52-54 | a key of at most three characters is shown whole on both sides of the mask |
| Utilities.RedactHidesMiddle | katsdpdata/utilities.py:52-54 | two keys that agree on their first three and last three characters redact to the same text, so nothing of the middle is revealed |
| Utilities.AnonStatement | katsdpdata/utilities.py:66-79 | a policy statement allows one action on one resource to every principal |
| Utilities.AnonAccessPolicy | katsdpdata/utilities.py:57-83 | the policy has version 2012-10-17 and two AddPerm statements allowing '*': GetObject on the bucket's objects and ListBucket on the bucket |
| Utilities.AnonAccessGrants | katsdpdata/utilities.py:57-83 | the policy lets an anonymous caller do exactly two things: GetObject on an object of the bucket, and ListBucket on the bucket itself |
| TelescopeModels.FullNameSplits | katsdpfilewriter/katsdpfilewriter/telescope_model.py:36 | a full name is the proxy path, '_', then the short name, so both can be read back from it |
| TelescopeModels.SensorsFor | katsdpfilewriter/katsdpfilewriter/telescope_model.py:33-36 | one sensor per name, in order, each with that name, the proxy-prefixed full name, the given criticality and no description |
| TelescopeModels.AttributesFor | katsdpfilewriter/katsdpfilewriter/telescope_model.py:38-41 | one attribute per name, in order, each with that name, the proxy-prefixed full name and the given criticality |
| TelescopeModels.SensorsForSnoc | katsdpfilewriter/katsdpfilewriter/telescope_model.py:34-36 | one more name appends exactly one sensor for it |
| TelescopeModels.AttributesForSnoc | katsdpfilewriter/katsdpfilewriter/telescope_model.py:39-41 | one more name appends exactly one attribute for it |
| TelescopeModels.TelescopeComponent.constructor | katsdpfilewriter/katsdpfilewriter/telescope_model.py:27-31 | the proxy path is the given one, or the component name when none is given; sensors and attributes start empty |
| TelescopeModels.TelescopeComponent.AddSensors | katsdpfilewriter/katsdpfilewriter/telescope_model.py:33-36 | the sensors grow by the sensors for the names, in order; the attributes are unchanged |
| TelescopeModels.TelescopeComponent.AddAttributes | katsdpfilewriter/katsdpfilewriter/telescope_model.py:38-41 | the attributes grow by the attributes for the names, in order; the sensors are unchanged |
| TelescopeModels.WithComponentsFirstWins | katsdpfilewriter/katsdpfilewriter/telescope_model.py:55-60 | corrected: after adding components (duplicates skipped), a name is present iff it was before or some component has it; an existing entry stays; a new name holds the first component carrying it |
| TelescopeModels.FirstOfNameKept | katsdpfilewriter/katsdpfilewriter/telescope_model.py:55-60 | a component whose name is new and not shared with an earlier one is the one stored under its name |
| TelescopeModels.WithComponentsKeys | katsdpfilewriter/katsdpfilewriter/telescope_model.py:55-60 | the names after add_components are the old names plus those of the added components |
| TelescopeModels.WithComponentsAsWrittenLastWins | katsdpfilewriter/katsdpfilewriter/telescope_model.py:56-60 | as written, the same names result, but each name holds the LAST component carrying it |
| TelescopeModels.DuplicateNameOverwrites | katsdpfilewriter/katsdpfilewriter/telescope_model.py:57 | for two components of one name, the code as written keeps the second while the intended check keeps the first |
| TelescopeModels.TelescopeModel.constructor | katsdpfilewriter/katsdpfilewriter/telescope_model.py:44-46 | a new model has no components and no flag descriptions |
| TelescopeModels.TelescopeModel.AddComponents | katsdpfilewriter/katsdpfilewriter/telescope_model.py:55-61 | corrected to first wins: the components become the old dictionary with the new components added, a component whose name is already present skipped; the flag descriptions are unchanged |
| TelescopeModels.TelescopeModel.SetFlagsDescription | katsdpfilewriter/katsdpfilewriter/telescope_model.py:63-66 | the flag descriptions are replaced by the given list; the components are unchanged |
| Ar1Model.AntennaShape | katsdpfilewriter/katsdpfilewriter/ar1_model.py:15-23 | an antenna positioner has twelve sensors, all critical, and two attributes: observer (critical) then description (not critical) |
| Ar1Model.NewAntennaPositioner | katsdpfilewriter/katsdpfilewriter/ar1_model.py:12-23 | a new positioner has the given name and proxy path, the twelve antenna sensors and the observer and description attributes |
| Ar1Model.NewCorrelatorBeamformer | katsdpfilewriter/katsdpfilewriter/ar1_model.py:26-34 | a new correlator/beamformer has target (critical) and auto_delay_enabled sensors, the eight critical correlator attributes, then center_freq |
| Ar1Model.NewEnviro | katsdpfilewriter/katsdpfilewriter/ar1_model.py:37-42 | a new enviro component has the five weather sensors, not critical, and no attributes |
| Ar1Model.NewDigitiser | katsdpfilewriter/katsdpfilewriter/ar1_model.py:45-48 | a new digitiser has the overflow sensor only |
| Ar1Model.NewObservation | katsdpfilewriter/katsdpfilewriter/ar1_model.py:51-55 | a new observation component has label and params (critical) then script_log |
| Ar1Model.NewSdp | katsdpfilewriter/katsdpfilewriter/ar1_model.py:58-61 | a new SDP component has no sensors and the critical l0_int_time attribute |
| Ar1Model.CreateModel | katsdpfilewriter/katsdpfilewriter/ar1_model.py:64-86 | with the corrected first-wins add_components: the model's names are the mask's names plus cbf, anc, obs and sdp; each mask name holds an antenna positioner; a fixed name no antenna takes holds its own component; an empty mask gives four components; there are eight flag bits |
| Ar1Model.NewFixed | katsdpfilewriter/katsdpfilewriter/ar1_model.py:68-71 | the four fixed components are made in the order cbf, anc, obs, sdp, each of its kind |
| Ar1Model.ModelHolds | katsdpfilewriter/katsdpfilewriter/ar1_model.py:72-75 | the dictionary built from the antennas followed by the fixed components has exactly the names and entries that create_model promises |
| Ar1Model.NewModel | katsdpfilewriter/katsdpfilewriter/ar1_model.py:74-85 | with the corrected first-wins add_components: a new model holds the given components, a repeated name keeping its first, and the eight flag descriptions |
| Ar1Model.NewAntennas | katsdpfilewriter/katsdpfilewriter/ar1_model.py:65-67 | one antenna positioner per mask name, in mask order |
| Ar1Model.ModelEntries | katsdpfilewriter/katsdpfilewriter/ar1_model.py:72-75 | with the corrected first-wins add_components: each mask name holds the positioner of its first occurrence, and each fixed name not in the mask holds its fixed component |
| Ar1Model.NamesOfModel | katsdpfilewriter/katsdpfilewriter/ar1_model.py:66-72 | the names of the component list are the mask's names plus the four fixed names |
| Ar1Model.AntennaEntry | katsdpfilewriter/katsdpfilewriter/ar1_model.py:66-75 | a mask name is a key, and its entry is the positioner made for one of its occurrences |
| Ar1Model.FixedEntry | katsdpfilewriter/katsdpfilewriter/ar1_model.py:68-75 | a fixed name that no antenna uses is a key holding that fixed component |
| Crawler.Filter | katsdptrawler/katsdptrawler/crawler.py:18 | the kept entries are exactly the listed entries that match the pattern |
| Crawler.MatchRegex | katsdptrawler/katsdptrawler/crawler.py:17-18 | the result is sorted, holds exactly the matching entries, and is a permutation of the matching entries in listing order |
| Crawler.List | katsdptrawler/katsdptrawler/crawler.py:20-25 | one list per regular expression, under the same key; each is sorted and holds exactly the entries matching that expression |
| Crawler.PairMembers | katsdptrawler/katsdptrawler/crawler.py:36-44 | a product is listed iff its stream is a listed stream, its head is the stream's first ten characters, and that head is a listed capture block |
| Crawler.PairLength | katsdptrawler/katsdptrawler/crawler.py:39-43 | there are never more products than streams, and exactly as many when every stream's capture block is listed |
| Crawler.PairStreams | katsdptrawler/katsdptrawler/crawler.py:38-44 | the loop builds the pairing of streams with their capture blocks, stream by stream in order |
| Crawler.StreamList | katsdptrawler/katsdptrawler/crawler.py:30-44 | every matched stream is at least ten characters long, and the products are the pairing of the sorted streams with the sorted capture blocks |
| Crawler.UnpairedStream | katsdptrawler/katsdptrawler/crawler.py:40-43 | a stream whose ten-digit prefix is not a listed block gives no product; one whose prefix is listed gives one |
| MetDetectors.ViewGet | katsdpdata/met_detectors.py:42-43 | a key read through a namespace view is the namespaced value when there is one, otherwise the root value, otherwise missing |
| MetDetectors.TelstateDetectionCases | katsdpdata/met_detectors.py:26-47 | detection succeeds iff the stream name is set and its stream type reads sdp.vis or sdp.flags; sdp.vis gives the telescope-product extractor and sdp.flags the flag-product extractor, and every other case raises |
| MetDetectors.ViewOverridesRoot | katsdpdata/met_detectors.py:42-43 | a stream type stored under the stream's namespace wins over any root value |
| MetDetectors.FileTypeDetection | katsdpdata/met_detectors.py:10-24 | a file whose final extension is not .rdb raises the "not a valid file type" error naming that extension and file; an .rdb file goes to telstate detection |
| MetDetectors.DetectedIsRdb | katsdpdata/met_detectors.py:21-23 | every file that detection accepts ends in .rdb |
| MetDetectors.FinalSuffixOnly | katsdpdata/met_detectors.py:21 | only the last extension counts, so a .full.rdb file is detected like an .rdb file |
| MetadataSearch.WrapBare | katsdpdata/metadatasearch.py:81-82 | a range is left alone iff it starts with '[' or ends with ']'; otherwise it is upper-cased and wrapped in brackets |
| MetadataSearch.ToSolrDateFormat | katsdpdata/metadatasearch.py:24-54 | the date rewriting is the Solr client's: each day/month/year date becomes its ISO 8601 form |
| MetadataSearch.HalfBracketSentAsIs | katsdpdata/metadatasearch.py:80-83 | a range that starts with '[' but has no dates, such as "[* to now", is sent as it is: not upper-cased and not closed |
| MetadataSearch.AgreesOnBareRanges | katsdpdata/metadatasearch.py:77-90 | on a range with neither bracket, this client and the Solr client send the same terms |
| MetadataSearch.SearchQueryShape | katsdpdata/metadatasearch.py:77-90 | with no text, no range and no keywords the query is "*:*"; with text it starts with "text:" and that text |
| MetadataSearch.KatSdpData.constructor | katsdpdata/metadatasearch.py:17-22 | a new client keeps the URL, is not connected, and has no query, cached answer, hits or docs |
| MetadataSearch.KatSdpData.Connect | katsdpdata/metadatasearch.py:56-65 | the client is connected; with no URL the old URL and cached answer stay; with a URL it is adopted and the cache is cleared |
| MetadataSearch.KatSdpData.Search | katsdpdata/metadatasearch.py:67-93 | the query is the terms joined by spaces, or "*:*"; an unconnected client raises AttributeError and keeps its results; a connected one stores the answer for that query and rows, and its hits and docs |
| MetadataSearch.AppendKwargTerms | katsdpdata/metadatasearch.py:84-89 | the keyword loop appends one term per pair, in order, with "CAS." in front of a CAS field name |
| SolrClients.Group | katsdpdata/solr_clients.py:38 | one day or month group of the date pattern is one or two digits followed by '/' |
| SolrClients.MatchAt | katsdpdata/solr_clients.py:38 | a match found at a position has the shape d{1,2}/d{1,2}/ then four or two year digits, and lies within the text |
| SolrClients.MatchAtComplete | katsdpdata/solr_clients.py:38 | wherever a date of some shape starts, the pattern matches there, taking four year digits when present, else two |
| SolrClients.FoundAreDates | katsdpdata/solr_clients.py:38-39 | everything findall returns is made of digits and '/' and starts with a digit |
| SolrClients.NoSlashNoDates | katsdpdata/solr_clients.py:38-39 | text without '/' holds no date |
| SolrClients.IndexFrom | katsdpdata/solr_clients.py:41 | the search for the text to replace finds its first occurrence from the given index, or reports that there is none |
| SolrClients.IndexIs | katsdpdata/solr_clients.py:41 | an occurrence with none before it is the one that is replaced |
| SolrClients.ReplaceKeepsBrackets | katsdpdata/solr_clients.py:41 | replacing one found date keeps a range's opening and closing brackets |
| SolrClients.DateToIso8601 | katsdpdata/solr_clients.py:30-42 | the loop replaces each found date, once and in order, by its ISO 8601 form at midnight SAST |
| SolrClients.RewritesKeepBrackets | katsdpdata/solr_clients.py:39-41 | rewriting the dates keeps a range's brackets |
| SolrClients.NoDatesUnchanged | katsdpdata/solr_clients.py:39-42 | text without '/' comes back unchanged |
| SolrClients.Bracketed | katsdpdata/solr_clients.py:54-57 | the result starts with '[' and ends with ']'; each bracket is added only when missing |
| SolrClients.BracketedIdempotent | katsdpdata/solr_clients.py:54-57 | bracketing a bracketed range changes nothing |
| SolrClients.UpperKeepsBrackets | katsdpdata/solr_clients.py:58 | upper-casing keeps the brackets |
| SolrClients.ParseDateRange | katsdpdata/solr_clients.py:44-58 | _parse_date_range brackets the range, upper-cases it, then rewrites its dates |
| SolrClients.ParsedIsBracketed | katsdpdata/solr_clients.py:44-58 | every parsed range starts with '[' and ends with ']' |
| SolrClients.ParsedRelativeRange | katsdpdata/solr_clients.py:44-58 | a range without '/' comes back bracketed and upper-cased, with nothing else changed |
| SolrClients.SkipNonDigits | katsdpdata/solr_clients.py:38-39 | no date starts at a non-digit, so leading text without digits adds no match |
| SolrClients.DateInFront | katsdpdata/solr_clients.py:38-39 | a whole date at the front, not followed by a further year digit, is the first string found, and scanning resumes after it |
| SolrClients.DateAfterText | katsdpdata/solr_clients.py:38-39 | a whole date after text without digits is the next string found |
| SolrClients.ReplaceAfterSlashless | katsdpdata/solr_clients.py:41 | a date after text without '/' is replaced where it stands |
| SolrClients.FoundTwoDates | katsdpdata/solr_clients.py:38-39 | two whole dates between texts without digits are both found, in order |
| SolrClients.RewrittenTwoDates | katsdpdata/solr_clients.py:39-41 | two such dates are each replaced where they stand by their ISO forms |
| SolrClients.RewritesTwo | katsdpdata/solr_clients.py:39-41 | two found dates are replaced one after the other |
| SolrClients.BareTwoDates | katsdpdata/solr_clients.py:54-57 | "1/1/2001 to 31/12/2001" gets both brackets |
| SolrClients.BracketedTwoDates | katsdpdata/solr_clients.py:54-57 | "[1/1/2001 to 31/12/2001]" is kept as it is |
| SolrClients.UpperTwoDates | katsdpdata/solr_clients.py:58 | upper-casing turns "to" into "TO" and leaves the dates alone |
| SolrClients.ParsedTwoDates | katsdpdata/solr_clients.py:44-58 | both spellings of the two-date range parse to "[iso1 TO iso2]" |
| SolrClients.LoneDate | katsdpdata/solr_clients.py:39-42 | a lone date becomes its ISO form |
| SolrClients.KwargTermReadsBack | katsdpdata/solr_clients.py:65-69 | a keyword filter reads back as its field (with "CAS." in front of a CAS field) and its value, split at the first ':' |
| SolrClients.KwargTerms | katsdpdata/solr_clients.py:60-70 | one filter term per keyword pair, in order |
| SolrClients.ParseSearchKwargs | katsdpdata/solr_clients.py:60-70 | the loop builds exactly the filter terms of the pairs, in order |
| SolrClients.JoinStarts | katsdpdata/solr_clients.py:98 | the joined query starts with its first term, and holds a space when there are two or more |
| SolrClients.QueryMatchesAll | katsdpdata/solr_clients.py:98 | the query is "*:*" iff there are no terms (or the one term is "*:*") |
| SolrClients.SearchParts | katsdpdata/solr_clients.py:90-96 | corrected: the terms are the text term, then the date term, then the keyword filters, each only when given |
| SolrClients.Keys | katsdpdata/solr_clients.py:96 | extending a list by a keyword dictionary adds its keys, in order |
| SolrClients.KwargKeysOnly | katsdpdata/solr_clients.py:96 | as written a ProductName filter sends only "ProductName"; the intended search sends "CAS.ProductName:x" |
| SolrClients.SearchQueryShape | katsdpdata/solr_clients.py:90-98 | no filters give "*:*"; a text search starts with "text:" and the text; a range search without text starts with "StartTime:" and the parsed range |
| SolrClients.KatSdpSolrClient.constructor | katsdpdata/solr_clients.py:17-22 | a new client keeps the URL, is not connected, and has no query, cached answer, hits or docs |
| SolrClients.KatSdpSolrClient.Connect | katsdpdata/solr_clients.py:72-81 | the client is connected; with no URL the old URL and cache stay; with a URL it is adopted and the cache is cleared |
| SolrClients.KatSdpSolrClient.Search | katsdpdata/solr_clients.py:83-101 | corrected: the query is the joined terms or "*:*"; an unconnected client raises AttributeError and keeps its results; a connected one stores Solr's answer to that query and rows, and its hits and docs |
| SolrClients.KatSdpSolrClient.Ask | katsdpdata/solr_clients.py:99-101 | a connected client stores Solr's answer to the query and rows, and its hits and docs, and keeps its url, connection and query |
| ExampleExtractor.NewBaseExtractor | scripts/example_extractor_script.py:31-36 | a new base extractor has the given metadata file name, no product type, empty metadata and nothing extracted |
| ExampleExtractor.NewExampleExtractor | scripts/example_extractor_script.py:76-79 | the example extractor writes to the file name plus ".met", has product type "ExampleFileType" and extracts from the absolute file name |
| ExampleExtractor.BaseExtractionFails | scripts/example_extractor_script.py:38-47 | extracting with no product type raises "No product type." and leaves the extractor as it was, still not extracted |
| ExampleExtractor.ExampleExtraction | scripts/example_extractor_script.py:81-87 | extraction records ProductName, then FileContent, then ProductTypeName; a file that cannot be read raises after ProductName is set |
| ExampleExtractor.ExampleRerunHarmless | scripts/example_extractor_script.py:84-87 | extracting a readable file a second time leaves the same metadata |
| MeerkatExtractors.FirstUnderscore | katsdpdata/meerkat_product_extractors.py:42-43 | the index where split('_', 1) cuts: an '_' with none before it, or none iff the name has no '_' |
| MeerkatExtractors.CaptureStreamSteps | katsdpdata/meerkat_product_extractors.py:38-43 | two steps: the ids, then StreamId, which raises when the name has no '_' |
| MeerkatExtractors.CaptureStreamIds | katsdpdata/meerkat_product_extractors.py:38-43 | CaptureStreamId is the name; CaptureBlockId is the part before the first '_', and it, '_' and StreamId give back the name; with no '_' an IndexError is raised after the two ids are set |
| MeerkatExtractors.NewTelescopeStreamExtractor | katsdpdata/meerkat_product_extractors.py:14-18 | the metadata file is the source name plus ".met", the product type is "MeerKATTelescopeProduct", and extraction runs at most once |
| MeerkatExtractors.TelescopeStreamHead | katsdpdata/meerkat_product_extractors.py:29-31 | the type, katdata and project extractions only merge fields and never raise |
| MeerkatExtractors.TelescopeStreamExtraction | katsdpdata/meerkat_product_extractors.py:20-34 | extraction succeeds iff the source name holds '_'; CAS.ProductTypeName is "MeerKATTelescopeProduct" and CaptureStreamId is the source name |
| MeerkatExtractors.HeadType | katsdpdata/meerkat_product_extractors.py:45-48 | after the head steps CAS.ProductTypeName holds the telescope product type |
| MeerkatExtractors.FirstMergeWins | katsdpdata/meerkat_product_extractors.py:29-33 | a key set by an earlier step and by no later one keeps its value |
| MeerkatExtractors.LocationKeys | katsdpdata/meerkat_product_extractors.py:33 | the location step writes neither CAS.ProductTypeName nor CaptureStreamId |
| MeerkatExtractors.CaptureStreamTail | katsdpdata/meerkat_product_extractors.py:32-33 | the capture-stream and location steps fail iff the name has no '_' and keep the product type already set |
| MeerkatExtractors.FlagStreamId | katsdpdata/meerkat_product_extractors.py:61-81 | the stream id is the capture block id, '_' and the stream name |
| MeerkatExtractors.FlagSteps | katsdpdata/meerkat_product_extractors.py:71-74 | the flag extraction only merges fields |
| MeerkatExtractors.NewFlagExtractor | katsdpdata/meerkat_product_extractors.py:58-63 | the metadata file is the stream id plus ".met", the product type is "MeerKATFlagProduct", and extraction runs at most once |
| MeerkatExtractors.FlagExtraction | katsdpdata/meerkat_product_extractors.py:65-88 | extraction never fails and sets CAS.ProductTypeName, CaptureStreamId, CaptureBlockId and StreamId from the capture block id and stream name |
| S3Transfer.ConnectConfig | katsdptrawler/katsdptrawler/s3transfer.py:36-39 | the configuration is a copy of the default with host, port and profile replaced and the rest kept |
| S3Transfer.ConnectDefault | katsdptrawler/katsdptrawler/s3transfer.py:14-20 | connecting with the default host, port and profile gives the default configuration |
| S3Transfer.Connect | katsdptrawler/katsdptrawler/s3transfer.py:23-57 | a connection is returned iff the user-id probe succeeds; a response error is re-raised; the socket-error handler raises NameError because `e` is unbound there |
| S3Transfer.Payload | katsdptrawler/katsdptrawler/s3transfer.py:115-130 | the payload is the local file's content or the object's content, and reading fails iff the source is missing |
| S3Transfer.Delete | katsdptrawler/katsdptrawler/s3transfer.py:118-133 | deleting removes exactly the local file or the source object |
| S3Transfer.Check | katsdptrawler/katsdptrawler/s3transfer.py:95-99 | true iff both sizes are set, non-zero and equal; otherwise an error, which is the TypeError of formatting None with %d when a size is unset |
| S3Transfer.TransferDeletesOnlyAfterCheck | katsdptrawler/katsdptrawler/s3transfer.py:101-106 | a transfer succeeds iff the source reads and the store reports its exact non-zero size; then the key holds the payload and the source is gone; on failure every local file and every other object is untouched |
| S3Transfer.SelfCopyDeletes | katsdptrawler/katsdptrawler/s3transfer.py:101-133 | an object transferred onto its own key is put and then deleted |
| S3Transfer.TransferAsWritten | katsdptrawler/katsdptrawler/s3transfer.py:89-93 | as written the transfer changes nothing, since _put names an undefined `keyname` |
| S3Transfer.TransferAsWrittenFails | katsdptrawler/katsdptrawler/s3transfer.py:75-91 | a readable non-empty file whose transfer the intended code completes fails as written, and the file stays |
| S3Transfer.Storage.constructor | katsdptrawler/katsdptrawler/s3transfer.py:109-133 | the storage starts with the given files and objects |
| S3Transfer.S3Transferer.constructor | katsdptrawler/katsdptrawler/s3transfer.py:75-113 | a new transfer keeps its source, bucket and key, with both sizes None |
| S3Transfer.S3Transferer.Put | katsdptrawler/katsdptrawler/s3transfer.py:89-93 | the key now holds the payload, nothing else changes, and the payload and sink sizes are recorded |
| S3Transfer.S3Transferer.Transfer | katsdptrawler/katsdptrawler/s3transfer.py:101-106 | corrected: the new storage and the result are those of the transfer specification on the old storage |
| TrawlerProduct.FirstType | katsdptrawler/katsdptrawler/product.py:116-120 | the first product type whose pattern matches the name, or none iff no pattern matches |
| TrawlerProduct.StreamTypesDisjoint | katsdptrawler/katsdptrawler/product.py:13-14 | no stream name matches both the telescope and the flag pattern, so the dictionary's order does not matter |
| TrawlerProduct.ProductTypeCases | katsdptrawler/katsdptrawler/product.py:104-123 | a telescope stream gives MeerKATTelescopeProduct, a flag stream MeerKATFlagProduct, and any other name no type |
| TrawlerProduct.DocumentedTelescopeStreams | katsdptrawler/katsdptrawler/product.py:107-108 | the documented l0 and l0-continuum names, with '-' or '_', are telescope streams |
| TrawlerProduct.DocumentedFlagStreams | katsdptrawler/katsdptrawler/product.py:109-110 | the documented l1-flags and l1-flags-continuum names, with '-' or '_', are flag streams |
| TrawlerProduct.StreamProduct.constructor | katsdptrawler/katsdptrawler/product.py:23-96 | the name is the stream; the RDB files are the stream with '-' written as '_' plus ".rdb" and ".full.rdb"; there is no record id and no handler |
| TrawlerProduct.StreamProduct.ProductType | katsdptrawler/katsdptrawler/product.py:104-123 | the first matching stream type, or ProductError when none matches |
| TrawlerProduct.StreamProduct.SetMetadataHandlerAsWritten | katsdptrawler/katsdptrawler/product.py:31-32 | as written the set-up always raises TypeError, since the handler is built from the endpoint alone |
| TrawlerProduct.StreamProduct.SetMetadataHandler | katsdptrawler/katsdptrawler/product.py:31-37 | corrected so that the handler is built for the product's type and name: the handler is set; an existing record gives its id, an unknown one is created as a core record of the product's type; an unknown type or a duplicated record raises and keeps the old id |
| TrawlerProduct.StreamProduct.Call | katsdptrawler/katsdptrawler/product.py:45-86 | without a handler, ProductError "Metadata handler not set for" the name is raised and nothing is recorded; with one (only after the corrected set-up) the request is recorded with the record id |
| TrawlerProduct.StreamProduct.ProductMetadata | katsdptrawler/katsdptrawler/product.py:67-74 | an extraction error is raised; otherwise ProductError without a handler, and with one (only after the corrected set-up) the extracted metadata is recorded under the record id |
| TrawlerProduct.StreamProduct.TransferStatus | katsdptrawler/katsdptrawler/product.py:63-65 | it raises iff a handler is set, because it reads an attribute that is never set |
| TrawlerProduct.AsWrittenHandlerCalls | katsdptrawler/katsdptrawler/product.py:23-56 | as written, after the set-up has raised TypeError the product still has no handler, so the next handler call raises ProductError naming the stream |
| TrawlerProduct.CorrectedHandlerCalls | katsdptrawler/katsdptrawler/product.py:31-56 | with the corrected set-up and a record stored once, the set-up succeeds and the next handler call is made with that record's id |
| TrawlerProduct.RdbNames | katsdptrawler/katsdptrawler/product.py:94-96 | both RDB names hold no '-', keep the stream's length, and end in ".rdb" and ".full.rdb" |
| FileWriter.SplitArray | katsdpfilewriter/katsdpfilewriter/file_writer.py:25-44 | a view exists iff neither dtype holds objects, the item size divides evenly and the array is unmasked; it has the new dtype, the old shape plus the item-size ratio, and the new item size appended to any strides |
| FileWriter.SplitArrayErrors | katsdpfilewriter/katsdpfilewriter/file_writer.py:31-38 | the checks run in order: objects first, then an uneven item size, then a mask, each with its own ValueError |
| FileWriter.SplitKeepsBytes | katsdpfilewriter/katsdpfilewriter/file_writer.py:39 | the view covers exactly as many bytes as the array |
| FileWriter.ComplexSplitsInPairs | katsdpfilewriter/katsdpfilewriter/file_writer.py:96-100 | a complex64 frame splits into float32 pairs, an extra axis of length 2 |
| FileWriter.AddFrameGrows | katsdpfilewriter/katsdpfilewriter/file_writer.py:74-94 | the datasets are created on the first frame only, from the frame's shape; every frame grows both by exactly one row and keeps the earlier rows and the row shapes |
| FileWriter.AddFrameStores | katsdpfilewriter/katsdpfilewriter/file_writer.py:100-102 | a frame of the right shape ends up as the new last row of both datasets |
| FileWriter.AddFrameMismatch | katsdpfilewriter/katsdpfilewriter/file_writer.py:93-101 | a frame of another shape raises after the resize and leaves a zero row behind |
| FileWriter.File.constructor | katsdpfilewriter/katsdpfilewriter/file_writer.py:48-55 | a new file has no datasets and has not created them |
| FileWriter.File.CreateData | katsdpfilewriter/katsdpfilewriter/file_writer.py:63-72 | both datasets exist with no rows, the visibilities with an extra axis of 2, and the file knows they exist |
| FileWriter.File.AddDataFrame | katsdpfilewriter/katsdpfilewriter/file_writer.py:74-103 | the new datasets and the result are those of the frame specification on the old state, and the file stays consistent |
| CheckFailedDirectory.MatchesH5Relative | scripts/check_failed_directory.py:39 | a listed name matching '[0-9]{10}.h5$' is relative, so joining keeps the directory |
| CheckFailedDirectory.JoinDistinct | scripts/check_failed_directory.py:39 | distinct relative names give distinct joined paths |
| CheckFailedDirectory.GetH5Files | scripts/check_failed_directory.py:38-39 | every path returned is a regular file joined from a listed name that matches the pattern, and every such file is returned |
| CheckFailedDirectory.GetH5FilesNoDup | scripts/check_failed_directory.py:38-39 | a listing without repeats gives no path twice |
| CheckFailedDirectory.Without | scripts/check_failed_directory.py:50 | the list keeps exactly the paths outside the removed set, in order |
| CheckFailedDirectory.RemoveFirst | scripts/check_failed_directory.py:50-60 | list.remove takes out one element |
| CheckFailedDirectory.WithoutNoDup | scripts/check_failed_directory.py:46-51 | removing paths keeps a list free of repeats |
| CheckFailedDirectory.WithoutTwice | scripts/check_failed_directory.py:46-51 | removing one set after another is removing their union |
| CheckFailedDirectory.RemoveFirstIsWithout | scripts/check_failed_directory.py:50 | in a list without repeats, list.remove(x) removes every x |
| CheckFailedDirectory.RemoveFirstAt | scripts/check_failed_directory.py:60 | in a list without repeats, removing the element at k leaves the rest in order |
| CheckFailedDirectory.DescribedName | scripts/check_failed_directory.py:47-48 | a line is a description iff it starts with "AddDescription" and ends in a capture-file name, which is then the file it describes |
| CheckFailedDirectory.DescribedPaths | scripts/check_failed_directory.py:46-49 | every path some line describes is in the set |
| CheckFailedDirectory.FilterHtaccessH5Files | scripts/check_failed_directory.py:41-54 | without an .htaccess nothing changes and no line is kept; otherwise every described file is removed and the lines kept are the first description of each listed file |
| CheckFailedDirectory.KeptLinesDescribeFiles | scripts/check_failed_directory.py:49-51 | every kept line comes from the .htaccess and describes one of the listed files |
| CheckFailedDirectory.KeptLinesDistinct | scripts/check_failed_directory.py:49-51 | no two kept lines describe the same file |
| CheckFailedDirectory.DescribedFilesKept | scripts/check_failed_directory.py:49-51 | every described listed file has a kept line |
| CheckFailedDirectory.FilterCutoffAsWritten | scripts/check_failed_directory.py:56-61 | the loop as written, removing from the list it iterates, gives the skipping filter |
| CheckFailedDirectory.CutoffVisit | scripts/check_failed_directory.py:57-60 | one visit of the iterator keeps its invariant and moves on, removing the file when it is too old |
| CheckFailedDirectory.FilterCutoff | scripts/check_failed_directory.py:56-61 | corrected: the intended filter keeps exactly the files without a cutoff or not older than it, and everything when there is no cutoff |
| CheckFailedDirectory.CutoffAsWrittenKeepsRecent | scripts/check_failed_directory.py:56-61 | as written every recent file still survives, and nothing new appears |
| CheckFailedDirectory.CutoffSkipsNext | scripts/check_failed_directory.py:57-60 | of two old files in a row, as written the second survives; the intended filter drops both |
| CheckFailedDirectory.Passing | scripts/check_failed_directory.py:77-79 | the passing files are exactly those that open |
| CheckFailedDirectory.Failed | scripts/check_failed_directory.py:80-85 | the failed files are exactly those that do not open |
| CheckFailedDirectory.ErrorKeysMeaning | scripts/check_failed_directory.py:81-85 | a key is an error key exactly when some file fails with it |
| CheckFailedDirectory.CheckKatdal | scripts/check_failed_directory.py:70-86 | the passing files in order, and a dictionary from each error key, the repr with '"' made "'", to the entries of the files failing with it, in order |
| CheckFailedDirectory.GroupStep | scripts/check_failed_directory.py:73-85 | one more file either passes or joins its key's group, creating the group when the key is new |
| CheckFailedDirectory.NoKeyNoEntries | scripts/check_failed_directory.py:82-85 | a key no file fails with has no entries |
| CheckFailedDirectory.CheckedOnce | scripts/check_failed_directory.py:73-85 | every file lands in exactly one of the two outcomes, and a failed file's entry is under its key |
| CheckFailedDirectory.EntryLtTotal | scripts/check_failed_directory.py:108 | the tuple order is total |
| CheckFailedDirectory.EntryLtTrans | scripts/check_failed_directory.py:108 | the tuple order is transitive |
| CheckFailedDirectory.InsertDescending | scripts/check_failed_directory.py:108 | inserting an entry keeps the order descending and adds exactly that entry |
| CheckFailedDirectory.SortDescending | scripts/check_failed_directory.py:108 | sorted(..., reverse=True) gives a descending permutation of the entries |
| CheckFailedDirectory.BlockLines | scripts/check_failed_directory.py:108-109 | one description line per entry, naming the entry's file, in the order given |
| CheckFailedDirectory.CreateDescriptions | scripts/check_failed_directory.py:105-110 | the lines are the sorted blocks of the keys in the dictionary's order |
| CheckFailedDirectory.AppendBlock | scripts/check_failed_directory.py:108-109 | the inner loop appends exactly the block of one key |
| CheckFailedDirectory.DescriptionsCount | scripts/check_failed_directory.py:105-110 | there is one line per entry |
| CheckFailedDirectory.DescriptionNamesFile | scripts/check_failed_directory.py:47-109 | a line written for a capture file is read back as describing that file |
| MetHandler.Hits | katsdpdata/met_handler.py:56-57 | the query 'id:<id>' returns exactly the stored records with that id, in index order |
| MetHandler.QueryProdMet | katsdpdata/met_handler.py:42-66 | no hit gives {}, more than one raises, and one hit gives that record with Observer_lowercase removed and every other key kept with its value |
| MetHandler.Upsert | katsdpdata/met_handler.py:93-155 | adding a record with an id replaces the stored record with that id and leaves the records of every other id alone; a record without an id fails |
| MetHandler.Without | katsdpdata/met_handler.py:93 | the stored records minus those with one id, the others kept |
| MetHandler.HitsAppend | katsdpdata/met_handler.py:57 | adding a record to the core adds it to the hits of its own id only |
| MetHandler.QueryAfterUpsert | katsdpdata/met_handler.py:93-94 | a record read back after it is added is the record without its copy field |
| MetHandler.CoreMet | katsdpdata/met_handler.py:140-249 | the core record has exactly id, CAS.ProductId and CaptureStreamId equal to the product id, the product name, the type name and "urn:kat:" plus the type |
| MetHandler.StatusSurvivesPop | katsdpdata/met_handler.py:64-117 | reading a record back keeps its transfer status and its id |
| MetHandler.CoreIdAfterPop | katsdpdata/met_handler.py:156 | a core record read back keeps its id |
| MetHandler.CoreMetLacksStatus | katsdpdata/met_handler.py:147-153 | a core record has no transfer status |
| MetHandler.ChooseProductId | katsdpdata/met_handler.py:34-37 | the product id is the one supplied when non-empty, else a fresh uuid |
| MetHandler.FileUrl | katsdpdata/met_handler.py:169-170 | a reference becomes a file:// URL, and an absolute path is kept after "file://" |
| MetHandler.FileUrls | katsdpdata/met_handler.py:182 | one URL per reference, in order |
| MetHandler.Sizes | katsdpdata/met_handler.py:178 | the list of sizes exists iff every reference has a size, and then holds each reference's size in order |
| MetHandler.MimeTypes | katsdpdata/met_handler.py:179-181 | one mime type per reference: the guessed one, or application/x-data when there is none |
| MetHandler.RefOriginalMet | katsdpdata/met_handler.py:158-184 | no references raise; one gives Flat, more give Hierarchical; the record gains the sorted file URLs, one size and one mime type per reference, and keeps its other keys |
| MetHandler.S3Urls | katsdpdata/met_handler.py:198 | one datastore URL per original reference, in order |
| MetHandler.InferredDatastoreMet | katsdpdata/met_handler.py:195-199 | a record without original references is returned as it is; otherwise it gains the S3 form of each reference |
| MetHandler.InferredBucket | katsdpdata/met_handler.py:190-194 | a file under /data becomes the s3 URL of the same path without the /data prefix |
| MetHandler.RefDatastoreMet | katsdpdata/met_handler.py:214 | the record gains the datastore references sorted, the same references as given, and keeps its other keys |
| MetHandler.ProdMet | katsdpdata/met_handler.py:226-227 | the product fields are merged in, except ProductName, which keeps its old presence and value |
| MetHandler.ReceivedMet | katsdpdata/met_handler.py:91-92 | the status becomes RECEIVED with the received time, other keys kept |
| MetHandler.CreatedMet | katsdpdata/met_handler.py:107-108 | the status becomes CREATED with an empty received time, other keys kept |
| MetHandler.StateOf | katsdpdata/met_handler.py:131 | a state is found iff the record holds a transfer status |
| MetHandler.CoreMetHasNoState | katsdpdata/met_handler.py:129-156 | a freshly created core record has no transfer status |
| MetHandler.Handler.constructor | katsdpdata/met_handler.py:29-37 | the handler keeps the core, the type and the name, and its id is the supplied one or the fresh uuid |
| MetHandler.Handler.GetProdMet | katsdpdata/met_handler.py:42-66 | an empty id means the handler's own product id |
| MetHandler.Handler.GetState | katsdpdata/met_handler.py:129-131 | the transfer status of the handler's record, failing iff reading it fails |
| MetHandler.Handler.Store | katsdpdata/met_handler.py:93-94 | the record is added to the core and read back without its copy field; a record without an id changes nothing |
| MetHandler.Handler.CreateCoreMet | katsdpdata/met_handler.py:140-156 | the core now holds the core record, which is returned read back |
| MetHandler.Handler.SetProductReceived | katsdpdata/met_handler.py:80-94 | the core holds the record marked RECEIVED at the given time, which is returned read back |
| MetHandler.Handler.SetProductCreated | katsdpdata/met_handler.py:96-110 | the core holds the record marked CREATED, which is returned read back |
| MetHandler.Handler.SetProductStatus | katsdpdata/met_handler.py:112-122 | a given record is stored with the status; without one the stored record is used, or a core record is created when there is none; on success the record read back holds the status |
| MetHandler.Handler.SetStoredStatus | katsdpdata/met_handler.py:113-122 | with no record given, the stored one, or a new core record, gets the status |
| MetHandler.Handler.AddBucketStats | katsdpdata/met_handler.py:124-127 | the record updated by the bucket fields is stored and read back |
| MetHandler.Handler.AddRefOriginal | katsdpdata/met_handler.py:158-186 | the record with its original references is stored and read back; a failing reference list changes nothing |
| MetHandler.Handler.AddInferredRefDatastore | katsdpdata/met_handler.py:188-201 | a record without original references is returned unchanged and nothing is stored; otherwise the inferred record is stored and read back |
| MetHandler.Handler.AddRefDatastore | katsdpdata/met_handler.py:203-216 | the record with its sorted datastore references is stored and read back |
| MetHandler.Handler.AddProdMet | katsdpdata/met_handler.py:218-229 | the merged product record is stored and read back |
| CeleryWorkflowMgr.PrefixesExclusive | katsdpdata/scripts/celery-workflowmgr.py:81-83 | no event name starts with two of the prefixes, so the dictionary's order does not matter |
| CeleryWorkflowMgr.FindQueueFromEvent | katsdpdata/scripts/celery-workflowmgr.py:80-86 | the queue of the prefix the event starts with, and Kat when it starts with none |
| CeleryWorkflowMgr.ListEvents | katsdpdata/scripts/celery-workflowmgr.py:58-64 | exactly the server's attribute names that start with one of the prefixes |
| CeleryWorkflowMgr.ListEventsAppend | katsdpdata/scripts/celery-workflowmgr.py:58-64 | the events keep dir() order: those of two runs of names are the first run's followed by the second's |
| CeleryWorkflowMgr.EventQueue | katsdpdata/scripts/celery-workflowmgr.py:68 | the first CeleryQueue entry when the metadata has one, else the queue of the event's prefix; an empty CeleryQueue raises |
| CeleryWorkflowMgr.HandleEventAsWritten | katsdpdata/scripts/celery-workflowmgr.py:69-72 | as written an unknown event raises a TypeError, since the error names the server class with too few arguments |
| CeleryWorkflowMgr.HandleEvent | katsdpdata/scripts/celery-workflowmgr.py:66-73 | corrected: an event is dispatched iff the server has that method and the queue is found, with the metadata and that queue; an unknown event raises "No such method" |
| CeleryWorkflowMgr.UnknownEventAsWritten | katsdpdata/scripts/celery-workflowmgr.py:72 | for an unknown KatFile event the error as written differs from the intended "No such method" |
| CeleryWorkflowMgr.ReductionNameOverride | katsdpdata/scripts/celery-workflowmgr.py:126-182 | an empty ReductionName is replaced by the Description, every other field kept; a missing field raises |
| CeleryWorkflowMgr.Respond | katsdpdata/scripts/celery-workflowmgr.py:48-50 | a request is answered as exited iff it is the exit request |
| CeleryWorkflowMgr.Responses | katsdpdata/scripts/celery-workflowmgr.py:52-53 | one answer per request, in order |
| CeleryWorkflowMgr.Served | katsdpdata/scripts/celery-workflowmgr.py:52-53 | the requests served run up to and including the first exit |
| CeleryWorkflowMgr.WorkflowServer.constructor | katsdpdata/scripts/celery-workflowmgr.py:42-44 | a new server has its attribute names, has not finished and has answered nothing |
| CeleryWorkflowMgr.WorkflowServer.ExitEvent | katsdpdata/scripts/celery-workflowmgr.py:75-78 | the server is finished and True is returned |
| CeleryWorkflowMgr.WorkflowServer.ServeForever | katsdpdata/scripts/celery-workflowmgr.py:46-53 | the answers are those of the requests up to the first exit, and the server is finished iff an exit came |
| CeleryWorkflowMgr.ServedAt | katsdpdata/scripts/celery-workflowmgr.py:52-53 | where the loop stops is where the first exit is, or the end |
| FilewriterTrawler.LastTenDigits | katsdpfilewriter/scripts/vis_trawler.py:62-68 | the greedy match '^.*[0-9]{10}' ends where the last run of ten digits ends, or there is no match |
| FilewriterTrawler.RdbDir | katsdpfilewriter/scripts/vis_trawler.py:62-68 | the RDB directory is a prefix of the stream directory |
| FilewriterTrawler.RdbDirOfStream | katsdpfilewriter/scripts/vis_trawler.py:62-68 | for a stream directory named by a ten-digit capture block id and a digit-free stream, the RDB directory is the capture block's |
| FilewriterTrawler.LastTenDigitsFrom | katsdpfilewriter/scripts/vis_trawler.py:62 | the match ends at the last place ten digits end |
| FilewriterTrawler.RdbFile | katsdpfilewriter/scripts/vis_trawler.py:61-72 | the RDB file of that suffix beside the capture block, present iff it is a file |
| FilewriterTrawler.GetCbidDict | katsdpfilewriter/scripts/vis_trawler.py:56-78 | the details fail iff the RDB directory cannot be matched |
| FilewriterTrawler.CbidDictFields | katsdpfilewriter/scripts/vis_trawler.py:73-78 | the key is the directory relative to the trawl directory; the .npy count is the number of .npy files; the token is set iff a 'complete' file exists; the two RDB entries are the RDB files when present |
| FilewriterTrawler.Details | katsdpfilewriter/scripts/vis_trawler.py:31 | one entry per stream directory |
| FilewriterTrawler.DetailsSpec | katsdpfilewriter/scripts/vis_trawler.py:31 | each entry is its directory's details, and gathering fails iff some directory has no RDB directory |
| FilewriterTrawler.DetailsValues | katsdpfilewriter/scripts/vis_trawler.py:31 | each entry is its directory's details |
| FilewriterTrawler.DetailsFails | katsdpfilewriter/scripts/vis_trawler.py:31 | gathering fails iff some directory has no RDB directory |
| FilewriterTrawler.GenUploadManifest | katsdpfilewriter/scripts/vis_trawler.py:50-54 | the manifest is the .npy files of every stream in order, cut at 1000 whatever limit is passed |
| FilewriterTrawler.ManifestBounds | katsdpfilewriter/scripts/vis_trawler.py:54 | the manifest holds at most 1000 files, is a prefix of all the files, and is all of them when there are at most 1000 |
| FilewriterTrawler.FlattenMembers | katsdpfilewriter/scripts/vis_trawler.py:52-53 | a file is listed iff some stream has it |
| FilewriterTrawler.UploadDeletesOnlyComplete | katsdpfilewriter/scripts/vis_trawler.py:80-98 | a file is deleted only if it was in the list and the store reported its full size (less the 128-byte header for .npy); files left keep their contents |
| FilewriterTrawler.UploadOneDeletes | katsdpfilewriter/scripts/vis_trawler.py:88-98 | one upload deletes at most its own file, and only when complete |
| FilewriterTrawler.UploadOneNoRevive | katsdpfilewriter/scripts/vis_trawler.py:88-98 | an upload never brings back a deleted file |
| FilewriterTrawler.UploadDeletesComplete | katsdpfilewriter/scripts/vis_trawler.py:80-98 | when the transfer completes, each listed file is deleted iff the stored byte count was the one it needs |
| FilewriterTrawler.UploadOneOther | katsdpfilewriter/scripts/vis_trawler.py:93-98 | an upload leaves other files where they were |
| FilewriterTrawler.UploadOneSelf | katsdpfilewriter/scripts/vis_trawler.py:84-98 | an upload that succeeds came after no failure, had its file, and deletes it iff the size check passed |
| FilewriterTrawler.UploadUntouched | katsdpfilewriter/scripts/vis_trawler.py:83 | a file not in the list is left alone |
| FilewriterTrawler.NpyKey | katsdpfilewriter/scripts/vis_trawler.py:84-90 | a .npy file is stored in the bucket of its first directory, under the rest of its path without the extension |
| FilewriterTrawler.UploadAfterFailure | katsdpfilewriter/scripts/vis_trawler.py:83-98 | after an exception nothing further happens |
| FilewriterTrawler.UploadAllStep | katsdpfilewriter/scripts/vis_trawler.py:83 | the files are uploaded one after another |
| FilewriterTrawler.TransferFiles | katsdpfilewriter/scripts/vis_trawler.py:80-99 | the files left and the keys written or the exception are those of uploading the list in order |
| FilewriterTrawler.UploadNext | katsdpfilewriter/scripts/vis_trawler.py:83-98 | one more turn of the loop uploads the next file |
| FilewriterTrawler.UploadFile | katsdpfilewriter/scripts/vis_trawler.py:84-98 | one file is uploaded as the specification says |
| FilewriterTrawler.SendFile | katsdpfilewriter/scripts/vis_trawler.py:88-98 | the key is the stored key of the file, and the file is deleted iff the stored byte count is its expected size |
| FilewriterTrawler.RdbRuleCounterexample | katsdpfilewriter/scripts/vis_trawler.py:34-84 | with only the .rdb file present, as written that file is sent and deleted and then TypeError is raised; the corrected rule leaves both alone |
| FilewriterTrawler.RdbStepDeletes | katsdpfilewriter/scripts/vis_trawler.py:33-35 | the corrected rule deletes only the two complete RDB files of a finished stream with no .npy files left |
| FilewriterTrawler.ParallelSlices | katsdpfilewriter/scripts/vis_trawler.py:117-119 | there are ten slices per CPU |
| FilewriterTrawler.ParallelSlicesPartition | katsdpfilewriter/scripts/vis_trawler.py:119 | file j is in slice k iff k is j modulo the number of workers |
| FilewriterTrawler.UploadSlicesStep | katsdpfilewriter/scripts/vis_trawler.py:123-126 | each slice is uploaded from where the previous ones left the files, and the first exception is the one reported |
| FilewriterTrawler.ParallelUpload | katsdpfilewriter/scripts/vis_trawler.py:116-126 | the files left and the result are those of uploading the slices one after another |
| FilewriterTrawler.TrawlPass | katsdpfilewriter/scripts/vis_trawler.py:28-48 | one pass, with the corrected RDB rule: the details of every stream directory, the rule on each, then the .npy manifest uploaded when it is not empty; an exception ends the pass; an upload that the timer measured as 0 whole seconds leaves the uploaded staging area and then raises ZeroDivisionError in the rate report, and only then |
| FilewriterTrawler.SendRdbPairs | katsdpfilewriter/scripts/vis_trawler.py:33-35 | the corrected RDB rule, which sends a pair only when both files exist, over the streams in order, stopping at an exception |
| FilewriterTrawler.RdbPhaseAfterFailure | katsdpfilewriter/scripts/vis_trawler.py:33-35 | after an exception later streams are not touched |
| FlagWriter.FlagItem.constructor | katsdpflagwriter/scripts/flag_writer.py:55-61 | a new dump has no fragments, expects the given count and records its start time |
| FlagWriter.FlagItem.AddFragment | katsdpflagwriter/scripts/flag_writer.py:63-69 | one more fragment is counted, and the result says whether the dump is now complete |
| FlagWriter.NatToStringDigits | katsdpflagwriter/scripts/flag_writer.py:188 | str of a dump index is a non-empty digit string |
| FlagWriter.ParseNatToString | katsdpflagwriter/scripts/flag_writer.py:188-202 | int(str(n)) is n |
| FlagWriter.SplitKey | katsdpflagwriter/scripts/flag_writer.py:198 | a key splits only into exactly two parts, the first being the capture block id |
| FlagWriter.SplitNoSep | katsdpflagwriter/scripts/flag_writer.py:198 | a string without '_' splits into itself |
| FlagWriter.SplitAtFirst | katsdpflagwriter/scripts/flag_writer.py:198 | splitting cuts at the first '_' |
| FlagWriter.SplitFlagKey | katsdpflagwriter/scripts/flag_writer.py:188-198 | a key made from a capture block id without '_' and a dump index splits back into both |
| FlagWriter.Pad5 | katsdpflagwriter/scripts/flag_writer.py:202 | '{:05d}' gives at least five characters ending in the digits |
| FlagWriter.Remove | katsdpflagwriter/scripts/flag_writer.py:205 | popping a key takes exactly that key out of the order |
| FlagWriter.StoreSpec | katsdpflagwriter/scripts/flag_writer.py:197-217 | storing succeeds iff the key splits and is cached; then the key is gone and one more file is saved; on failure nothing changes; the cache stays consistent |
| FlagWriter.Pop | katsdpflagwriter/scripts/flag_writer.py:205-214 | popping and saving removes the key, saves one file and keeps the cache consistent |
| FlagWriter.FlushList | katsdpflagwriter/scripts/flag_writer.py:219-233 | corrected: the keys to flush: all of them, or else the oldest beyond FLAG_CACHE_SIZE |
| FlagWriter.FlushListAsWritten | katsdpflagwriter/scripts/flag_writer.py:224-230 | as written, below ten entries to_flush is unbound, and otherwise it is the newest keys beyond the first ten |
| FlagWriter.FlushAsWrittenCounterexample | katsdpflagwriter/scripts/flag_writer.py:227-232 | one cached key raises UnboundLocalError as written where the corrected check flushes nothing; with eleven keys the newest is flushed instead of the oldest |
| FlagWriter.RemoveHead | katsdpflagwriter/scripts/flag_writer.py:205 | removing the oldest key takes it off the front |
| FlagWriter.RemoveAbsent | katsdpflagwriter/scripts/flag_writer.py:205 | removing an absent key changes nothing |
| FlagWriter.StoreHead | katsdpflagwriter/scripts/flag_writer.py:197-217 | storing the oldest dump removes it from the front and saves one file |
| FlagWriter.FlushPrefix | katsdpflagwriter/scripts/flag_writer.py:232-233 | flushing the first n keys removes exactly them and saves n files |
| FlagWriter.CheckCacheBounds | katsdpflagwriter/scripts/flag_writer.py:219-233 | corrected: after the check the cache is empty when storing all, and otherwise holds at most ten keys, the newest; a cache within bounds is untouched |
| FlagWriter.FlushEverything | katsdpflagwriter/scripts/flag_writer.py:224-319 | storing every key empties the cache |
| FlagWriter.FlushOverflow | katsdpflagwriter/scripts/flag_writer.py:227-233 | corrected: flushing the overflow leaves at most ten keys, the newest |
| FlagWriter.Counted | katsdpflagwriter/scripts/flag_writer.py:188-193 | a new key is appended with one fragment and the endpoint count expected; a cached one gets one more fragment |
| FlagWriter.AddSpecCompletes | katsdpflagwriter/scripts/flag_writer.py:173-195 | a fragment that completes its dump saves it, under the dump's file name, and removes it from the cache |
| FlagWriter.RemoveLength | katsdpflagwriter/scripts/flag_writer.py:205 | removing a cached key shortens the order |
| FlagWriter.SetBlockState | katsdpflagwriter/scripts/flag_writer.py:161-168 | COMPLETE removes the block and keeps the others; any other state is stored |
| FlagWriter.CompleteNeverStored | katsdpflagwriter/scripts/flag_writer.py:161-166 | the recorded states are only ever CAPTURING |
| FlagWriter.LinkedRemove | katsdpflagwriter/scripts/flag_writer.py:205 | removing a key keeps each key linked to its own dump |
| FlagWriter.LinkedAdd | katsdpflagwriter/scripts/flag_writer.py:189-190 | adding a fresh dump keeps each key linked to its own dump |
| FlagWriter.AdmitValid | katsdpflagwriter/scripts/flag_writer.py:189-190 | a new key appended with its entry keeps the cache consistent |
| FlagWriter.FlagWriterServer.constructor | katsdpflagwriter/scripts/flag_writer.py:80-96 | a new server has no blocks, no cached dumps, no saved files and no partial dumps |
| FlagWriter.FlagWriterServer.StoreFlags | katsdpflagwriter/scripts/flag_writer.py:197-217 | the cache after storing is the storing specification's, and the block states are untouched |
| FlagWriter.FlagWriterServer.PopFlags | katsdpflagwriter/scripts/flag_writer.py:205-214 | the cache after the pop and save is the specification's |
| FlagWriter.FlagWriterServer.CheckCache | katsdpflagwriter/scripts/flag_writer.py:219-233 | the cache after the check is that of flushing the corrected key list |
| FlagWriter.FlagWriterServer.AddFlags | katsdpflagwriter/scripts/flag_writer.py:173-195 | the cache after a fragment is the specification's: counted, stored when complete, and checked |
| FlagWriter.FlagWriterServer.CountFragment | katsdpflagwriter/scripts/flag_writer.py:188-193 | the fragment is counted, and the result says whether its dump is complete |
| FlagWriter.FlagWriterServer.Bump | katsdpflagwriter/scripts/flag_writer.py:66-193 | a cached dump gets one more fragment, nothing else changes |
| FlagWriter.FlagWriterServer.Admit | katsdpflagwriter/scripts/flag_writer.py:189-190 | a new dump is cached at the end of the order with no fragments |
| FlagWriter.FlagWriterServer.Insert | katsdpflagwriter/scripts/flag_writer.py:189-190 | the new FlagItem is cached under its key at the end of the order with no fragments, and the cache stays valid |
| FlagWriter.FlagWriterServer.CaptureInit | katsdpflagwriter/scripts/flag_writer.py:293-297 | an active block is refused and changes nothing; otherwise it becomes CAPTURING |
| FlagWriter.FlagWriterServer.CaptureDone | katsdpflagwriter/scripts/flag_writer.py:299-320 | an unknown block is refused; otherwise every dump is stored, then the block's complete file is touched and the block removed |
| TrawlFs.WithFailedToken | scripts/vis_trawler.py:166-180 | the directory has a failed token afterwards; an existing token is never overwritten; a new one holds the message, or "" when there is none |
| TrawlFs.WithoutTree | scripts/vis_trawler.py:183-187 | removing a tree deletes exactly the files below the directory and keeps the rest unchanged |
| TrawlFs.BucketAndKey | scripts/vis_trawler.py:335 | the bucket, '/', and the key give back the path relative to the trawl directory, and the bucket has no '/' |
| TrawlFs.DeletedOnlyWhenComplete | scripts/vis_trawler.py:334-346 | a file is deleted only if it was in the list and the store reported its full size; the files left keep their contents |
| TrawlFs.TransferOneDeletes | scripts/vis_trawler.py:339-343 | one transfer deletes at most its own file, and only a complete one |
| TrawlFs.DeletedWhenComplete | scripts/vis_trawler.py:334-346 | when no exception stops it, each listed file is deleted iff its whole size was stored |
| TrawlFs.TransferOneOther | scripts/vis_trawler.py:343 | one transfer leaves every other file as it was |
| TrawlFs.TransferOneSelf | scripts/vis_trawler.py:335-343 | a transfer that succeeds had its file, and deletes it iff it was stored whole |
| TrawlFs.UntouchedOutsideList | scripts/vis_trawler.py:334 | files not in the list keep their contents |
| TrawlFs.UploadSizeAppend | scripts/vis_trawler.py:145-146 | the upload size of two lists is the sum of their sizes |
| TrawlFs.UploadSizeOfMissing | scripts/vis_trawler.py:145-146 | files that no longer exist add nothing to the upload size |
| TrawlFs.FileSystem.constructor | scripts/vis_trawler.py:91 | the staging area starts with the given files |
| TrawlFs.FileSystem.SetFailedToken | scripts/vis_trawler.py:166-180 | the files afterwards are those of the failed-token rule |
| TrawlFs.FileSystem.RemoveTree | scripts/vis_trawler.py:183-187 | the files afterwards are those without the tree |
| TrawlFs.FileSystem.TransferFiles | scripts/vis_trawler.py:318-347 | the files left and the s3 URLs, or the exception, are those of transferring the list in order |
| TrawlFs.AfterFailure | scripts/vis_trawler.py:334-346 | once an exception has ended the loop, later files change nothing |
| VisTrawler.Select | scripts/vis_trawler.py:263-267 | the directories of one kind, joined to the trawl directory, are exactly the sub-directories of that kind |
| VisTrawler.ListTrawlDirDisjoint | scripts/vis_trawler.py:29-267 | no directory is both a capture block and a capture stream |
| VisTrawler.ListTrawlFiles | scripts/vis_trawler.py:271-315 | the matches and the complete flag are those of the walk's classification, and a failed token gives no matches and not complete |
| VisTrawler.JoinEndsWithName | scripts/vis_trawler.py:307 | a joined path ends with the file's extension |
| VisTrawler.MatchesHaveExt | scripts/vis_trawler.py:303-307 | every match ends with the wanted extension |
| VisTrawler.LastBlock | scripts/vis_trawler.py:99 | the last place below n where ten digits and '_' start, or none |
| VisTrawler.DotFrom | scripts/vis_trawler.py:99 | [^.]* stops at the first '.' or the end |
| VisTrawler.RdbPrefix | scripts/vis_trawler.py:99-101 | '^.*[0-9]{10}_[^.]*' matches a prefix of the name that ends at a '.' or the end, and matches nothing iff the name holds no ten digits followed by '_' |
| VisTrawler.LastBlockSame | scripts/vis_trawler.py:99 | names with the same block positions have the same last block |
| VisTrawler.LastBlockBeyond | scripts/vis_trawler.py:99 | looking past the end changes nothing |
| VisTrawler.PairSharesPrefix | scripts/vis_trawler.py:99-110 | a product's .rdb and .full.rdb files both match back to the product |
| VisTrawler.Stems | scripts/vis_trawler.py:99-101 | exactly the prefixes some matching file gives |
| VisTrawler.RdbProducts | scripts/vis_trawler.py:99-109 | the products sorted and without repeats, exactly the prefixes of the files |
| VisTrawler.ParallelUpload | scripts/vis_trawler.py:366-383 | the files left, the URLs and the failure are those of transferring the worker slices in turn (UploadSpec) |
| VisTrawler.UploadSpecRemoves | scripts/vis_trawler.py:318-347 | the parallel upload changes no kept file and deletes only listed files the store took whole |
| VisTrawler.IngestVisProduct | scripts/vis_trawler.py:190-242 | the files left and the outcome are those of the corrected ingest (IngestProduct) |
| VisTrawler.PreUploadMet | scripts/vis_trawler.py:206-241 | when extraction, the record lookup and the RECEIVED check pass, the record they prepare, finished with any transferred URLs, is what the intended ingest gives |
| VisTrawler.IngestProductSteps | scripts/vis_trawler.py:190-242 | the corrected ingest gives a record iff the steps before the upload pass and no worker of the RDB upload fails, and the record is the prepared one finished with the uploaded URLs |
| VisTrawler.IngestProductMet | scripts/vis_trawler.py:190-242 | a record from the corrected ingest is the intended IngestMet of the product's extraction and existing record, with the URLs its upload returned |
| VisTrawler.IngestProductFiles | scripts/vis_trawler.py:190-242 | the corrected ingest leaves the files as they were or as the upload of the product's two RDB files leaves them |
| VisTrawler.OutcomeRemoves | scripts/vis_trawler.py:190-242 | one ingest changes no kept file; only the corrected ingest deletes, and only the product's .rdb and .full.rdb files that the store took whole |
| VisTrawler.OutcomeNoRevive | scripts/vis_trawler.py:190-242 | an ingest adds no file |
| VisTrawler.IngestedReceived | scripts/vis_trawler.py:237-241 | a record comes only from the corrected ingest, and it is RECEIVED at the trawl time |
| VisTrawler.IngestAllPaired | scripts/vis_trawler.py:109-130 | at a paired product the loop keeps an ingested record and goes on from the files the ingest left; a failure with a bucket name writes that bucket's failed token and ends the block quietly; one without ends the pass with its message |
| VisTrawler.IngestAllRemoves | scripts/vis_trawler.py:109-130 | the ingest loop changes no kept file, and deletes only RDB matches of the block that the store took whole, and that only with the corrected ingest |
| VisTrawler.IngestAllNoNew | scripts/vis_trawler.py:109-130 | the only file the ingest loop can add is a failed token |
| VisTrawler.IngestAllRecords | scripts/vis_trawler.py:109-130 | every record the loop returns is RECEIVED at the trawl time, and as written it returns none |
| VisTrawler.IngestAllAsWrittenRaises | scripts/vis_trawler.py:109-130 | as written, when the first paired product has a working extraction and a record not yet RECEIVED, the loop ends the pass with the AttributeError, no file changed and no record |
| VisTrawler.BlockStepRemoves | scripts/vis_trawler.py:91-130 | a capture block step changes no kept file's contents; it deletes a file only when the block is complete and has no RDB file left and the file lies below it, or, with the corrected ingest, when the file is an RDB file the store took whole |
| VisTrawler.BlockStepNoNew | scripts/vis_trawler.py:91-130 | the only file a capture block step can add is a failed token |
| VisTrawler.BlockPhaseUnfold | scripts/vis_trawler.py:91-130 | the block loop is the first block's step, then, unless it raised, the rest of the blocks from the files it left, with the records in order |
| VisTrawler.BlockPhaseNoNew | scripts/vis_trawler.py:91-130 | the only file the block loop can add is a failed token |
| VisTrawler.BlockPhaseRemoves | scripts/vis_trawler.py:91-130 | the block loop changes no kept file other than a failed token; it deletes a file only below a complete block with no RDB file left, or, with the corrected ingest, an RDB file the store took whole |
| VisTrawler.BlockPhaseRecords | scripts/vis_trawler.py:91-130 | every record of the block loop is RECEIVED at the trawl time, and as written there are none |
| VisTrawler.BlockRemovedWhy | scripts/vis_trawler.py:91-130 | a file the sorted block loop deletes lies below a complete capture block with no RDB file left, or is an RDB file uploaded whole by the corrected ingest |
| VisTrawler.StreamPhaseNpy | scripts/vis_trawler.py:135-141 | every file queued for upload is a .npy file |
| VisTrawler.StreamPhaseNoRevive | scripts/vis_trawler.py:134-141 | the stream loop adds no file |
| VisTrawler.StreamPhaseRemoves | scripts/vis_trawler.py:134-141 | the stream loop changes no kept file and deletes only files below a complete capture stream with no .npy file left |
| VisTrawler.Truncate | scripts/vis_trawler.py:144 | the list cut to at most n entries, a prefix, and the whole list when short enough |
| VisTrawler.TrawlUploads | scripts/vis_trawler.py:134-146 | at most 5000 files are queued per trawl, all of them .npy files |
| VisTrawler.UploadPhaseRemoves | scripts/vis_trawler.py:143-163 | the batch upload changes no kept file and deletes only queued files the store took whole |
| VisTrawler.UploadPhaseNoRevive | scripts/vis_trawler.py:143-163 | the batch upload adds no file |
| VisTrawler.StreamsAndUploadRemoves | scripts/vis_trawler.py:134-163 | the streams and the upload add no file and change no kept file; they delete a file only below a complete capture stream, or a .npy file the store took whole |
| VisTrawler.TrawlRemoves | scripts/vis_trawler.py:76-163 | a trawl changes no kept file other than a failed token; a file it deletes lies below a complete capture block or stream, or is a .npy file, or with the corrected ingest an RDB file, that the store took whole |
| VisTrawler.TrawlRecords | scripts/vis_trawler.py:76-163 | every record of a trawl is RECEIVED at the trawl time, and as written a trawl ingests nothing |
| VisTrawler.IngestProducts | scripts/vis_trawler.py:109-133 | the files, the records and the error are those of the ingest loop with the corrected ingest (IngestAll) |
| VisTrawler.HandleBlock | scripts/vis_trawler.py:92-133 | one capture block with the corrected ingest: removed when complete and empty, its paired products ingested otherwise; the files, records and error are BlockStep's |
| VisTrawler.HandleStream | scripts/vis_trawler.py:135-141 | one capture stream: removed when complete and empty, its .npy files queued otherwise |
| VisTrawler.HandleBlocks | scripts/vis_trawler.py:92 | the blocks in sorted order with the corrected ingest, an exception ending the pass; the files, records and error are BlockPhase's |
| VisTrawler.HandleStreams | scripts/vis_trawler.py:134-141 | the streams in sorted order, with their files queued in turn |
| VisTrawler.Trawl | scripts/vis_trawler.py:76-163 | with the corrected ingest: the files left, the records and the upload size or the exception are those of the trawl specification, whose last phase uploads the queued files and deletes those the store took whole |
| VisTrawler.EffectiveAcl | scripts/vis_trawler.py:427-444 | the ACL set is the one asked for iff it is valid, and private otherwise |
| VisTrawler.BucketOf | scripts/vis_trawler.py:116-210 | the bucket name, the first directory below the trawl directory, holds no '/' |
| VisTrawler.IngestStart | scripts/vis_trawler.py:215-224 | with no record a core record is created; the ingest stops iff the record is already RECEIVED |
| VisTrawler.IngestAsWrittenFails | scripts/vis_trawler.py:206-226 | as written every ingest raises and changes no file; the error has no bucket name, and is the AttributeError, exactly when extraction works and the record is not already RECEIVED |
| VisTrawler.IngestMet | scripts/vis_trawler.py:190-242 | the intended ingest succeeds iff the record is not already RECEIVED and every reference, with their common directory first, has a size |
| VisTrawler.IngestMetReceived | scripts/vis_trawler.py:237-241 | corrected: an ingested record is RECEIVED at the given time, with the transferred URLs, their common directory first, as its datastore references |
| VisTrawler.StoredKeeps | scripts/vis_trawler.py:228-241 | the references default to a hierarchical structure, and fields no step writes are kept |
| VisTrawler.StoredStructure | scripts/vis_trawler.py:228-230 | with the common directory prepended the structure is Hierarchical unless the extractor says otherwise |
| VisTrawler.StoredKey | scripts/vis_trawler.py:228-241 | a field no step writes keeps its value |
| VisTrawler.IngestMetStructure | scripts/vis_trawler.py:215-241 | an ingested record is Hierarchical unless the extractor says otherwise, and a new record keeps the product id |
| VisTrawler.IngestCounterexample | scripts/vis_trawler.py:226 | a fresh product whose extraction works and whose two RDB files the store would take whole: as written the ingest raises the AttributeError without a bucket name and keeps both files |
| LegacyMetExtractors.LegacyFactory | katsdpdata/katsdpdata/met_extractors.py:126-152 | the AR1 subarray id gives the AR1 extractor; another id gives RTS or KAT7 by the sub-array product id, and any other raises the bad-creation error; a missing attribute gives KAT7 when the first antenna's name starts with 'ant', RTS otherwise, and an IndexError with no antennas |
| LegacyMetExtractors.LegacyFactoryKinds | katsdpdata/katsdpdata/met_extractors.py:126-152 | the factory never builds the tape extractor, and builds the AR1 one exactly for the AR1 subarray id |
| LegacyMetExtractors.LegacyKatpointTargets | katsdpdata/katsdpdata/met_extractors.py:111 | without repeats, exactly the targets' texts with 'tags=' removed, of the targets not named None or Nothing |
| LegacyMetExtractors.TargetTexts | katsdpdata/katsdpdata/met_extractors.py:111 | exactly the texts of the targets not named None or Nothing, with 'tags=' removed |
| LegacyMetExtractors.LegacyTargetNames | katsdpdata/katsdpdata/met_extractors.py:116 | without repeats, exactly the target names other than None, Nothing, azel and radec |
| LegacyMetExtractors.LegacyKatdataSteps | katsdpdata/katsdpdata/met_extractors.py:98-116 | three steps; the middle one writes InstructionSet iff both script parameters are present, and raises otherwise |
| LegacyMetExtractors.NewLegacyExtractor | katsdpdata/katsdpdata/met_extractors.py:93-336 | a fresh extractor whose met file is the dataset's absolute path plus '.met', with the kind's product type and steps, nothing extracted yet |
| LegacyMetExtractors.RunStopsAt | katsdpdata/katsdpdata/met_extractors.py:194-199 | the steps stop at the first one that raises, with its error |
| LegacyMetExtractors.LegacyNeedsInstructionSet | katsdpdata/katsdpdata/met_extractors.py:109-360 | without both script parameters every kind raises KeyError on the first one missing, and the extracted flag stays unset |
| LegacyMetExtractors.HeadLacksDigest | katsdpdata/katsdpdata/met_extractors.py:98-353 | with the parameters present, every step ahead of the digest is a merge that does not write FileDigest |
| LegacyMetExtractors.DigestAfterMerges | katsdpdata/katsdpdata/met_extractors.py:118-124 | after such merges, the digest steps succeed iff md5sum gave a digest, which they record, and raise KeyError on FileDigest otherwise |
| LegacyMetExtractors.DigestTail | katsdpdata/katsdpdata/met_extractors.py:118-124 | on a record without FileDigest, the digest steps succeed iff md5sum gave a digest, which they record |
| LegacyMetExtractors.LegacyDigestRequired | katsdpdata/katsdpdata/met_extractors.py:118-297 | a KAT7, RTS or AR1 extraction with the parameters present succeeds iff md5sum gave a digest, records it, and otherwise raises KeyError on FileDigest |
| LegacyMetExtractors.LacksTypeConcat | katsdpdata/katsdpdata/met_extractors.py:45-46 | steps that do not write the product type keys can be joined without writing them |
| LegacyMetExtractors.KatdataLacksType | katsdpdata/katsdpdata/met_extractors.py:98-116 | the katdal steps write neither product type key |
| LegacyMetExtractors.LaterStepsLackType | katsdpdata/katsdpdata/met_extractors.py:194-359 | no step after the first writes either product type key |
| LegacyMetExtractors.DigestLacksType | katsdpdata/katsdpdata/met_extractors.py:118-124 | the digest steps write neither product type key |
| LegacyMetExtractors.LacksTypeTail | katsdpdata/katsdpdata/met_extractors.py:45-46 | the steps after the first of a joined list write neither product type key |
| LegacyMetExtractors.HeadRestLacksType | katsdpdata/katsdpdata/met_extractors.py:230-353 | the steps after the product type, for each kind, write neither product type key |
| LegacyMetExtractors.LegacyProductType | katsdpdata/katsdpdata/met_extractors.py:45-46 | however far an extraction gets, the record holds the kind's product type under ProductType and has no CAS.ProductType |
| ProdHandler.NameKindsDisjoint | katsdpdata/prod_handler.py:24-26 | no directory name is both a capture block and a stream, nor both an L0 and an L1 stream |
| ProdHandler.ProductName | katsdpdata/prod_handler.py:384-516 | the directory name a key is made from holds no '/' |
| ProdHandler.Key | katsdpdata/prod_handler.py:380-517 | an RDB key is the directory name plus '-sdp-l0', an L0 key the name plus '-visibility', an L1 key the name itself |
| ProdHandler.BucketName | katsdpdata/prod_handler.py:342-346 | None for an empty path; otherwise a non-empty name without '/', or IndexError for a path of slashes only |
| ProdHandler.BucketIsProductName | katsdpdata/prod_handler.py:342-384 | for any path with a character other than '/', the bucket is the directory name the key is made from |
| ProdHandler.TransferStartedStates | katsdpdata/prod_handler.py:321-328 | TRANSFER_STARTED fails exactly when there is no state and the product is an RDB product with no file match holding ten digits and '_', with rdb_file_prefix's ValueError; otherwise no state and CREATED end TRANSFERRING, RECREATED and ARCHIVED end RESTAGING, and every other state is kept |
| ProdHandler.TransferDoneStreamStates | katsdpdata/prod_handler.py:308-336 | on a stream product TRANSFER_DONE turns TRANSFERRING into RECEIVED and RESTAGING into RESTAGED, keeps other states, and fails only when there is no record |
| ProdHandler.TransferDoneRdbStates | katsdpdata/prod_handler.py:308-401 | on an RDB product TRANSFER_DONE always ends RECEIVED, and fails only when there is no record |
| ProdHandler.ProductDetectedStates | katsdpdata/prod_handler.py:314-320 | PRODUCT_DETECTED fails with rdb_file_prefix's ValueError exactly when the state is none or ARCHIVED and the product is an RDB product with no prefixed file match; otherwise no state becomes CREATED, ARCHIVED becomes RECREATED, any other state is kept, and a second detection changes nothing |
| ProdHandler.FailedStates | katsdpdata/prod_handler.py:329-330 | FAILED is set from any state, and detection and a started transfer keep it |
| ProdHandler.NewProductLifecycle | katsdpdata/prod_handler.py:301-330 | a new product detected, started and done is RECEIVED, whatever its kind, except an RDB product with no prefixed file match, whose detection raises ValueError |
| ProdHandler.RestagedLifecycle | katsdpdata/prod_handler.py:301-401 | an archived product brought back ends RESTAGED as a stream product and RECEIVED as an RDB product; an RDB product with no prefixed file match raises ValueError on detection |
| ProdHandler.Take | katsdpdata/prod_handler.py:282 | Python's xs[:n] for negative as well as non-negative n |
| ProdHandler.StageBounds | katsdpdata/prod_handler.py:276-283 | for a non-negative limit the first min(limit, matches) files are staged and the rest of the limit is returned; it is 0 iff the limit did not exceed the matches, and a zero limit stages nothing |
| ProdHandler.CompletedIffTokenAndNoMatch | katsdpdata/prod_handler.py:248-268 | after a discovery, completed_and_transferred holds iff some file was the complete token and no file matched |
| ProdHandler.Product.constructor | katsdpdata/prod_handler.py:155-173 | a product starts with its key and no matches, nothing staged and complete unset |
| ProdHandler.Product.UpdateState | katsdpdata/prod_handler.py:301-330 | the record afterwards is the one the state machine gives for the product's file matches, or unchanged with an error (rdb_file_prefix's ValueError, or a missing record on TRANSFER_DONE); nothing else changes |
| ProdHandler.Product.DiscoverTrawlFiles | katsdpdata/prod_handler.py:232-258 | a failed token moves the product away and marks it FAILED; otherwise the matches grow by the scan's matches and complete is whether the token was seen |
| ProdHandler.Product.CollectTrawlFiles | katsdpdata/prod_handler.py:247-258 | the walk loop appends the scan's matches, in walk order, to the matches and sets complete to whether the token was seen, and changes nothing else |
| ProdHandler.Product.StageForTransfer | katsdpdata/prod_handler.py:276-283 | the staged files and the returned limit are those of staging the matches |
| ProdHandler.DiscoverFresh | katsdpdata/prod_handler.py:248-268 | a fresh product is complete and transferred iff some file is the token and none matches |
| ProdHandler.ListDir | katsdpdata/prod_handler.py:555-567 | no more directories than names listed |
| ProdHandler.ListDirMembers | katsdpdata/prod_handler.py:555-567 | a directory is listed iff it is the join of a matching sub-directory name |
| ProdHandler.ListsDisjoint | katsdpdata/prod_handler.py:543-552 | the capture block, L0 and L1 lists share no directory |
| ProdHandler.Keep | katsdpdata/prod_handler.py:579-590 | pruning never lengthens the list |
| ProdHandler.KeepMembers | katsdpdata/prod_handler.py:579-584 | a block is kept iff it was listed and no stream directory starts with it |
| ProdHandler.RemoveFirst | katsdpdata/prod_handler.py:582-588 | list.remove drops one element when present, and changes nothing otherwise |
| ProdHandler.FindStream | katsdpdata/prod_handler.py:580-584 | found iff some stream directory starts with the block |
| ProdHandler.ProductFactory.constructor | katsdpdata/prod_handler.py:525-552 | the three lists are the listed directories of each kind |
| ProdHandler.ProductFactory.PrunePass | katsdpdata/prod_handler.py:579-584 | the blocks with a stream are removed in place, the count is how many, and the stream lists are unchanged |
| ProdHandler.ProductFactory.PruneRdbProducts | katsdpdata/prod_handler.py:569-593 | the blocks with an L0 and then those with an L1 stream are removed, the count is how many, and the stream lists are unchanged |
| ProdHandler.PrunedExactly | katsdpdata/prod_handler.py:569-593 | a block survives iff it was listed and no stream directory of either level starts with it |
| ProdHandler.PruneTwoBlocks | katsdpdata/prod_handler.py:569-593 | of two capture blocks, the one with L0 and L1 streams is pruned and the other is kept |
| ProdHandler.UploadSlices | katsdpdata/prod_handler.py:109-115 | the split fails iff there would be no workers |
| ProdHandler.UploadSlicesPartition | katsdpdata/prod_handler.py:109-112 | there are min(files, 10 × CPUs) slices, each file is in exactly the slice of its index modulo that number, and no slice is empty |
| ProdHandler.Uploader.constructor | katsdpdata/prod_handler.py:36-40 | at most the first 5000 files are kept for upload |
| ProdHandler.Uploader.TransferFiles | katsdpdata/prod_handler.py:71-103 | the files left are those of transferring the list in order, and on success the URL list is empty |
| FileScan.Judge | katsdpdata/prod_handler.py:249-258 | a file being written is skipped before the extension test, a match before the token test |
| FileScan.ClassifyMatches | katsdpdata/prod_handler.py:248-254 | a path is collected iff it is the join of a walked file judged a match |
| FileScan.ClassifyComplete | katsdpdata/prod_handler.py:255-256 | complete is set iff some walked file is judged the token |
| FileScan.ClassifyBound | katsdpdata/prod_handler.py:248-254 | there are never more matches than files walked |
| FileScan.WritingWins | katsdpdata/prod_handler.py:250-253 | 'a.writing.npy' is skipped though it ends with '.npy' |
| FileScan.ClassifySnoc | katsdpdata/prod_handler.py:248-249 | the files are classified in walk order, one at a time |
| CasXml.Vals | katsdpdata/met_extractors.py:60-66 | a list gives one val per element (an empty list none), a text or None exactly one; only a non-empty list of integers cannot be written |
| CasXml.KeyVals | katsdpdata/met_extractors.py:58-66 | one keyval per key in order, each with that key's vals, failing iff some value is a non-empty list of integers |
| CasXml.ToXmlShape | katsdpdata/met_extractors.py:53-70 | the document has the cas namespace and one keyval per key, each key once; a list gives one val per element, a text or None one val; it fails iff some value is a non-empty list of integers |
| MetExtractors.Run | katsdpdata/met_extractors.py:263-269 | a key written by an earlier step is never removed, whether or not a later step raises |
| MetExtractors.RunAllMerges | katsdpdata/met_extractors.py:263-269 | steps that only add keys never raise and add the union of their keys, later steps winning |
| MetExtractors.RunKeeps | katsdpdata/met_extractors.py:263-269 | a key no later step writes keeps its value, even when a step raises |
| MetExtractors.RunLacks | katsdpdata/met_extractors.py:263-269 | a key no step writes stays absent |
| MetExtractors.FieldsLastWins | katsdpdata/met_extractors.py:263-269 | the last step that writes a key decides its value |
| MetExtractors.ExtractOnce | katsdpdata/met_extractors.py:263-271 | once extraction has run the guarded extractor changes nothing; a run that raises leaves the flag as it was, one that does not sets it |
| MetExtractors.ExtractOnceIdempotent | katsdpdata/met_extractors.py:263-398 | after a successful extraction a second call changes nothing |
| MetExtractors.MetExtractor.constructor | katsdpdata/met_extractors.py:42-47 | a new extractor has its file name and product type, an empty dictionary and nothing extracted |
| MetExtractors.MetExtractor.ExtractMetadata | katsdpdata/met_extractors.py:263-271 | the dictionary, the flag and the result are those of the run-once extraction |
| MetExtractors.MetExtractor.MetadataFile | katsdpdata/met_extractors.py:53-80 | without an extraction it raises 'No metadata extracted.'; otherwise it gives the metadata file name and the cas:metadata document of the dictionary, or the document's error |
| MetExtractors.ProductTypeMet | katsdpdata/met_extractors.py:49-51 | the product type under exactly ProductType and CAS.ProductTypeName |
| MetExtractors.KatpointTargets | katsdpdata/met_extractors.py:112 | the description of every target not named None or Nothing, and nothing else |
| MetExtractors.TargetNames | katsdpdata/met_extractors.py:117 | exactly the target names other than None, Nothing, azel and radec |
| MetExtractors.KatpointTargetsAppend | katsdpdata/met_extractors.py:112 | the descriptions keep catalogue order: those of a catalogue in two parts are the first part's followed by the second's |
| MetExtractors.TargetNamesAppend | katsdpdata/met_extractors.py:117 | the target names keep catalogue order: those of a catalogue in two parts are the first part's followed by the second's |
| MetExtractors.Restrict | katsdpdata/met_extractors.py:97-116 | the values kept are those of the listed keys |
| MetExtractors.InstructionSet | katsdpdata/met_extractors.py:118-122 | present iff both script parameters are, as the name, a space and the arguments |
| MetExtractors.KatdataMet | katsdpdata/met_extractors.py:94-122 | the katdal keys present, the antennas, both target lists, and InstructionSet exactly when both script parameters are present |
| MetExtractors.KatdataFields | katsdpdata/met_extractors.py:94-122 | the katdal record from its parts, with InstructionSet only when there is one |
| MetExtractors.KatdataNoType | katsdpdata/met_extractors.py:94-122 | the katdal record holds neither product type key |
| MetExtractors.ProjectMet | katsdpdata/met_extractors.py:148-164 | a project key is set iff its parameter is present, and for IssueId and ProposalDescription not empty, to that value |
| MetExtractors.ProjectNoType | katsdpdata/met_extractors.py:148-164 | the project record holds neither product type key |
| MetExtractors.RtsReductionMet | katsdpdata/met_extractors.py:305-309 | ReductionName is reduction_name, or '' when it is missing |
| MetExtractors.Ar1ReductionMet | katsdpdata/met_extractors.py:369-377 | ReductionLabel is a non-empty reduction_label, else a non-empty reduction_name, else absent |
| MetExtractors.OptionalText | katsdpdata/met_extractors.py:376-377 | a key is written only when there is a value |
| MetExtractors.LastTwo | katsdpdata/met_extractors.py:207 | katfile[-2:]: the last two characters, or the whole name when shorter |
| MetExtractors.Factory | katsdpdata/met_extractors.py:198-225 | 'sf' gives pulsar search, 'ar' pulsar timing, any suffix but 'h5' None; an .h5 file with no antennas raises IndexError, else gives KatFile when the first antenna's name starts with 'ant', RTS when the proposal id mentions RTS, and AR1 otherwise |
| MetExtractors.PartMet | katsdpdata/met_extractors.py:94-377 | each helper writes only its own keys |
| MetExtractors.Merges | katsdpdata/met_extractors.py:263-269 | one merge step per record, in order |
| MetExtractors.TelescopeSteps | katsdpdata/met_extractors.py:254-398 | one merge per helper the kind's extract_metadata calls, in its order |
| MetExtractors.TelescopeKey | katsdpdata/met_extractors.py:254-398 | a key written by a helper and by no later one ends with that helper's value |
| MetExtractors.NewTelescopeExtractor | katsdpdata/met_extractors.py:179-356 | a fresh extractor whose met file is the absolute katfile path plus '.met', with the kind's product type and steps, nothing extracted yet |
| MetExtractors.TypeKeysElsewhere | katsdpdata/met_extractors.py:94-164 | only the product type helper writes the product type keys |
| MetExtractors.TelescopeProductType | katsdpdata/met_extractors.py:49-395 | every telescope extraction writes its product type under both keys |
| MetExtractors.RtsReductionName | katsdpdata/met_extractors.py:305-328 | the RTS record has ReductionName, reduction_name or '' |
| MetExtractors.Ar1ReductionLabel | katsdpdata/met_extractors.py:369-395 | the AR1 record has ReductionLabel iff reduction_label or reduction_name is set, preferring reduction_label |
| MetExtractors.TelescopeProject | katsdpdata/met_extractors.py:148-164 | every project key the project helper writes ends in the record with the parameter's value |
| MetExtractors.TelescopeExtractionRuns | katsdpdata/met_extractors.py:263-396 | given total katdal, telstate and location oracles, the factory's telescope kinds always extract without raising |
| MetExtractors.FirstPickle | katsdpdata/met_extractors.py:471 | the first listed name ending with '.met.pickle', none iff there is no such name |
| MetExtractors.ReductionPickle | katsdpdata/met_extractors.py:469-476 | the joined pickle path when one is listed, MetExtractorException otherwise |
| MetExtractors.ReductionSteps | katsdpdata/met_extractors.py:478-488 | the product type and the pickled record, neither of which raises |
| MetExtractors.CalibrationBlockId | katsdpdata/met_extractors.py:845 | the first ten characters of the last path component, which holds no '/' |
| MetExtractors.CalibrationSteps | katsdpdata/met_extractors.py:841-846 | the calibration steps never raise |
| MetExtractors.NewCalibrationExtractor | katsdpdata/met_extractors.py:836-839 | a fresh extractor whose met file is the product name plus '.met', of type MeerKATAR1ReductionProduct |
| MetExtractors.CalibrationExtraction | katsdpdata/met_extractors.py:841-846 | the record names the calibration report, its capture block and the product type |
| MetExtractors.CalibrationBlockIdExample | katsdpdata/met_extractors.py:845 | '/data/1555555555_sdp_l0' belongs to capture block 1555555555 |
| TapeTables.StateRankOrdersNames | katsdptape/katsdptape/tapeinterface.py:318-324 | ranking drive states by number orders them exactly as their names compare, which is what ORDER BY drive.state does |
| TapeTables.Device | katsdptape/katsdptape/tapeinterface.py:488 | a drive has a device exactly when its config entry lists one, and it is the first one listed |
| TapeTables.FreeDrives | katsdptape/katsdptape/tapeinterface.py:318-324 | a drive is free exactly when it is EMPTY or holds a tape with more bytes written than the tape size limit |
| TapeTables.FirstFreeDrive | katsdptape/katsdptape/tapeinterface.py:226-324 | no drive is chosen exactly when none is free; otherwise the chosen drive is free and comes first by state name, then by id |
| TapeTables.EmptyDriveFirst | katsdptape/katsdptape/tapeinterface.py:226-324 | when any drive is EMPTY the chosen free drive is an EMPTY one |
| TapeTables.EmptyTapes | katsdptape/katsdptape/tapeinterface.py:343-348 | a tape is empty exactly when its row exists and its bytes written are below the size limit |
| TapeTables.FirstEmptyTape | katsdptape/katsdptape/tapeinterface.py:254-348 | no tape is chosen exactly when none is empty; otherwise the chosen (tape, slot) row is empty and has the least slot id |
| TapeTables.FreeSlots | katsdptape/katsdptape/tapeinterface.py:452-455 | a slot is free exactly when it has a row and no tape's slot_id names it |
| TapeTables.TapeInSlot | katsdptape/katsdptape/tapeinterface.py:380-385 | the slot holds no tape exactly when no tape row names it; otherwise the tape returned names that slot |
| TapeTables.TapeOfDrive | katsdptape/katsdptape/tapeinterface.py:413-418 | a drive has a tape exactly when its row names a tape that has a row, and then it is that tape |
| TapeTables.LocationOfTape | katsdptape/katsdptape/tapeinterface.py:271-278 | no location exactly when the tape has no row; otherwise its slot, and a drive exactly when some drive holds it, that drive naming the tape |
| TapeTables.SetState | katsdptape/katsdptape/tapeinterface.py:515-519 | only the named drive's state changes; every other row and every other column stays |
| TapeTables.LoadStep | katsdptape/katsdptape/tapeinterface.py:376-405 | the read, write and clean counters are kept and the commands issued so far stay a prefix |
| TapeTables.UnloadStep | katsdptape/katsdptape/tapeinterface.py:409-444 | the counters are kept and the commands issued so far stay a prefix |
| TapeTables.RewindStep | katsdptape/katsdptape/tapeinterface.py:510-531 | the counters are kept and the commands issued so far stay a prefix |
| TapeTables.TarStep | katsdptape/katsdptape/tapeinterface.py:461-508 | the counters other than the write count are kept and the commands issued so far stay a prefix |
| TapeTables.Forward | katsdptape/katsdptape/tapeinterface.py:589-592 | skipping n archives issues exactly n forward-skip commands to the drive's device |
| TapeTables.ReadStep | katsdptape/katsdptape/tapeinterface.py:575-603 | the counters other than the read count are kept and the commands issued so far stay a prefix |
| TapeTables.ExtractStep | katsdptape/katsdptape/tapeinterface.py:589-603 | the counters other than the read count are kept and the commands issued so far stay a prefix |
| TapeTables.LoadThenUnload | katsdptape/katsdptape/tapeinterface.py:376-444 | load puts the slot's tape in the drive and leaves it IDLE (free exactly when that tape is past the limit); unloading it again restores EMPTY with no tape, the same free slots, a free drive, and issues exactly the mtx load and unload |
| TapeTables.UnloadOutcome | katsdptape/katsdptape/tapeinterface.py:409-444 | unload succeeds exactly when the drive holds a tape; then the drive is free and tapeless and one mtx unload to the tape's slot was issued; otherwise nothing is issued and the drive is left UNLOADING |
| TapeTables.TarWritesOnlyWhenReady | katsdptape/katsdptape/tapeinterface.py:461-508 | an attached drive with a tape gains one write, ends IDLE, its tape gains the folder's size in bytes written, and one tar is issued for the folder's last path component; any other drive changes nothing |
| TapeTables.ReadCountsOnce | katsdptape/katsdptape/tapeinterface.py:575-603 | reading ends IDLE with exactly one more read, no tape row changes, and the commands are a rewind, tarNum forward skips and one extract |
| TapeTables.DigitRun | katsdptape/katsdptape/tapeinterface.py:93 | the run is a prefix of at most k digits and stops at a non-digit when shorter than both bounds |
| TapeTables.FirstDigit | katsdptape/katsdptape/tapeinterface.py:93 | none exactly when the line has no digit; otherwise the index of the first digit |
| TapeTables.FirstNumber | katsdptape/katsdptape/tapeinterface.py:93-101 | no number exactly when the line has no digit |
| TapeTables.FirstNumberOfLine | katsdptape/katsdptape/tapeinterface.py:101 | a line whose first digits spell n (below 1000) yields n |
| TapeTables.Pad3RoundTrip | katsdptape/katsdptape/tapeinterface.py:108-111 | the zero-padded label counter reads back as the same number and has at least three digits |
| TapeTables.NoLabelInjective | katsdptape/katsdptape/tapeinterface.py:108-111 | two NO LABEL names are equal only for equal counters |
| TapeTables.TagOf | katsdptape/katsdptape/tapeinterface.py:108 | the tag is at most six characters and, on a line of seven or more, the characters just before the last one |
| TapeTables.TagIsNoNoLabel | katsdptape/katsdptape/tapeinterface.py:108-110 | a tag read from the report never collides with a generated NO LABEL name |
| TapeTables.SlotMagazineRange | katsdptape/katsdptape/tapeinterface.py:118-125 | slot n lies in magazine (n-1)/30's block of thirty, and it is the block's first slot exactly when (n-1) % 30 == 0 |
| TapeTables.AnyShownMeans | katsdptape/katsdptape/tapeinterface.py:144 | a drive is attached exactly when lsscsi's output contains one of its device names |
| TapeInterface.TapeName | katsdptape/katsdptape/tapeinterface.py:107-111 | an unlabelled Full slot takes the next NO LABEL name and the counter moves on by one; every other line leaves the counter alone |
| TapeInterface.RefreshSlot | katsdptape/katsdptape/tapeinterface.py:100-129 | the pass fails exactly when the line has no number, and then nothing changes; otherwise rows are only added or updated and drives are untouched |
| TapeInterface.RefreshSlotShape | katsdptape/katsdptape/tapeinterface.py:100-129 | a numbered storage element writes its tape (keeping its bytes written) when Full, its slot with type and magazine, and a LOCKED magazine for a magazine's first slot |
| TapeInterface.RefreshSlots | katsdptape/katsdptape/tapeinterface.py:100-129 | the storage-element loop only adds or updates rows and leaves the drives alone |
| TapeInterface.SlotsReported | katsdptape/katsdptape/tapeinterface.py:100-129 | after a pass without error every reported storage element has its slot row |
| TapeInterface.UnlabelledStep | katsdptape/katsdptape/tapeinterface.py:107-111 | each unlabelled Full slot raises the counter by one and keeps every name up to the counter present |
| TapeInterface.RefreshSlotNamed | katsdptape/katsdptape/tapeinterface.py:107-111 | a Full storage element leaves its tape row under the name TapeName gives it |
| TapeInterface.UnlabelledNamed | katsdptape/katsdptape/tapeinterface.py:107-111 | over a whole report the counter equals the number of unlabelled Full slots and every NO LABEL name below it has a tape row |
| TapeInterface.RefreshDrive | katsdptape/katsdptape/tapeinterface.py:141-165 | a drive line only adds or updates rows, keeps the existing drives' counters, takes free slots only from those offered, and on failure changes nothing |
| TapeInterface.RefreshDrives | katsdptape/katsdptape/tapeinterface.py:141-165 | the data-transfer-element loop keeps drive counters, slots and magazines, and only uses offered free slots |
| TapeInterface.Refresh | katsdptape/katsdptape/tapeinterface.py:84-169 | corrected: get_state only adds or updates rows and keeps every drive's counters |
| TapeInterface.RefreshKeepsHistory | katsdptape/katsdptape/tapeinterface.py:113-165 | a refresh keeps every tape's bytes written and every drive's write and read counts and attached flag |
| TapeInterface.TapelessDriveFree | katsdptape/katsdptape/tapeinterface.py:159-165 | a tapeless drive recorded IDLE, as written, is not free, while recorded EMPTY it is |
| TapeInterface.GetStateNeverReturns | katsdptape/katsdptape/tapeinterface.py:133-449 | as written, get_state and get_free_slots each end in an error however deep the stack, and no drive row is written |
| TapeInterface.TapeMachineInterface.constructor | katsdptape/katsdptape/tapeinterface.py:28-41 | the interface works on the database it is given |
| TapeInterface.TapeMachineInterface.AddStorageElement | katsdptape/katsdptape/tapeinterface.py:100-129 | the database afterwards is RefreshSlot applied to it and no command is issued |
| TapeInterface.TapeMachineInterface.AddStorageElements | katsdptape/katsdptape/tapeinterface.py:100-129 | the storage-element loop leaves the database RefreshSlots of it |
| TapeInterface.TapeMachineInterface.AddDataTransferElement | katsdptape/katsdptape/tapeinterface.py:141-165 | corrected (tapeless drives EMPTY, free slots read without a fresh get_state): the database afterwards is RefreshDrive applied to it |
| TapeInterface.TapeMachineInterface.AddNextDataTransferElement | katsdptape/katsdptape/tapeinterface.py:141-165 | corrected (tapeless drives EMPTY, free slots read without a fresh get_state): one more turn extends the loop's pass by one line |
| TapeInterface.TapeMachineInterface.AddDataTransferElements | katsdptape/katsdptape/tapeinterface.py:141-165 | corrected (tapeless drives EMPTY, free slots read without a fresh get_state): the data-transfer-element loop leaves the database RefreshDrives of it |
| TapeInterface.TapeMachineInterface.GetState | katsdptape/katsdptape/tapeinterface.py:84-169 | corrected (tapeless drives EMPTY, free slots read without a fresh get_state): the database afterwards and the result are GetStateStep of the old database, and no command is issued |
| TapeInterface.NextBuffer | katsdptape/katsdptape/tapeinterface.py:647 | the next buffer index is 0 or 1 and differs from the current one |
| TapeInterface.SwapTwice | katsdptape/katsdptape/tapeinterface.py:647 | swapping twice returns to the same buffer |
| TapeInterface.TapeDeviceServer.constructor | katsdptape/katsdptape/tapeinterface.py:627-641 | the server starts on buffer 0 and its directory |
| TapeInterface.TapeDeviceServer.SwapBuffer | katsdptape/katsdptape/tapeinterface.py:645-649 | the index toggles, the directory becomes the other buffer's, and the reply names it |
| TapeInterface.TapeDeviceServer.SetBufferDir | katsdptape/katsdptape/tapeinterface.py:653-656 | the directory becomes the one given, the index stays, and the reply names it |
| TapeOps.LoadEmptyTapeOutcome | katsdptape/katsdptape/tapeinterface.py:360-372 | load_empty_tape fails with 'No empty tapes' exactly when none is empty, changing nothing; otherwise it loads the empty tape of least slot into the drive, leaves it IDLE and issues one mtx load |
| TapeOps.ChosenDrive | katsdptape/katsdptape/tapeinterface.py:224-232 | a given drive is used as is; otherwise no drive exactly when none is free, and else the first free drive |
| TapeOps.LoadTapeErrors | katsdptape/katsdptape/tapeinterface.py:224-257 | 'No Free Drives' with nothing changed when no drive is given and none is free; with a tapeless drive given, 'No empty tapes' exactly when no tape is empty |
| TapeOps.LoadTapeById | katsdptape/katsdptape/tapeinterface.py:239-250 | corrected: an unknown tape id fails; a tape already in a drive returns that drive and changes nothing; otherwise its slot is loaded into the drive, which ends IDLE |
| TapeOps.LoadTapeByIdAsWritten | katsdptape/katsdptape/tapeinterface.py:239-250 | as written, asking for a tape by id always raises and changes nothing |
| TapeOps.FullDriveReloaded | katsdptape/katsdptape/tapeinterface.py:235-237 | as written, a chosen drive holding a full tape gets a load without an unload; corrected, its tape is unloaded to its slot first |
| TapeOps.WriteBufferNotAttached | katsdptape/katsdptape/tapeinterface.py:299-300 | the write is refused with 'Drive not attached' exactly when the drive is not attached, and then nothing changes |
| TapeOps.WriteBufferFreshTape | katsdptape/katsdptape/tapeinterface.py:294-310 | a tapeless drive gets the first empty tape, its bytes written grow by the buffer's size, the drive ends EMPTY with one more write, and the commands are load, rewind, tar, unload |
| TapeOps.WriteBufferUsedTape | katsdptape/katsdptape/tapeinterface.py:303-305 | a drive holding a tape with bytes is first unloaded to that tape's slot, and the write then fails exactly when no empty tape remains |
| TapeOps.WriteBufferBlankTape | katsdptape/katsdptape/tapeinterface.py:301-308 | a drive holding a blank tape writes to it directly: rewind, tar, unload, and its bytes written grow by the buffer's size |
| TapeOps.TapeDatabase.constructor | katsdptape/katsdptape/tapeinterface.py:28-41 | the database holds the given tables and no command has been issued |
| TapeOps.TapeDatabase.Load | katsdptape/katsdptape/tapeinterface.py:376-405 | the new tables, commands and result are LoadStep of the old ones |
| TapeOps.TapeDatabase.Unload | katsdptape/katsdptape/tapeinterface.py:409-444 | the new tables, commands and result are UnloadStep of the old ones |
| TapeOps.TapeDatabase.RewindDrive | katsdptape/katsdptape/tapeinterface.py:510-531 | the new tables, commands and result are RewindStep of the old ones |
| TapeOps.TapeDatabase.TarFolderToTape | katsdptape/katsdptape/tapeinterface.py:461-508 | the new tables, commands and result are TarStep of the old ones |
| TapeOps.TapeDatabase.ReadFile | katsdptape/katsdptape/tapeinterface.py:575-603 | the new tables, commands and result are ReadStep of the old ones |
| TapeOps.TapeDatabase.Extract | katsdptape/katsdptape/tapeinterface.py:589-603 | the new tables and commands are ExtractStep of the old ones |
| TapeOps.TapeDatabase.LoadEmptyTape | katsdptape/katsdptape/tapeinterface.py:360-372 | the new tables, commands and result are LoadEmptyTapeStep of the old ones |
| TapeOps.TapeDatabase.LoadTape | katsdptape/katsdptape/tapeinterface.py:210-264 | the new tables, commands and result are the corrected LoadTapeStep of the old ones |
| TapeOps.TapeDatabase.LoadTapeFrom | katsdptape/katsdptape/tapeinterface.py:235-264 | once the drive is settled, the rest of load_tape as LoadTapeRest |
| TapeOps.TapeDatabase.WriteBufferToTape | katsdptape/katsdptape/tapeinterface.py:294-310 | the new tables, commands and result are WriteBufferStep of the old ones |
| TapeArchive.InsertSlot | tape_interface/src/tape_archive.py:88-117 | drives are untouched, and a failure is the list index error for a line without a number and the integrity error otherwise |
| TapeArchive.InsertSlotKeeps | tape_interface/src/tape_archive.py:101-117 | a storage element never changes or removes a tape, slot or magazine row already there |
| TapeArchive.InsertSlotStages | tape_interface/src/tape_archive.py:95-117 | the tape, slot and magazine INSERTs run in that order, a repeated key stopping the pass after the rows before it |
| TapeArchive.InsertSlotOutcome | tape_interface/src/tape_archive.py:88-117 | a storage element goes in exactly when all its rows are new, and then adds its slot, its tape (bytes 0) when Full and its LOCKED magazine for a first slot |
| TapeArchive.InsertRowsOutcome | tape_interface/src/tape_archive.py:101-117 | the tape, slot and magazine rows go in exactly when none of them exists, and then each table gains just its row; a clash is an IntegrityError |
| TapeArchive.InsertSlots | tape_interface/src/tape_archive.py:88-117 | the storage-element loop keeps every row already there and leaves drives alone |
| TapeArchive.InsertDrive | tape_interface/src/tape_archive.py:129-145 | a drive line goes in exactly when its rows are insertable, keeps every row already there and uses only offered free slots; on failure nothing changes |
| TapeArchive.InsertDrives | tape_interface/src/tape_archive.py:129-145 | the data-transfer-element loop keeps rows, slots and magazines and uses only offered free slots |
| TapeArchive.GetStateInsert | tape_interface/src/tape_archive.py:74-150 | get_state keeps every row already in the tables |
| TapeArchive.SecondRunFails | tape_interface/src/tape_archive.py:101-117 | running get_state a second time on the same report always stops with the integrity error |
| TapeArchive.InsertSlotsKeep | tape_interface/src/tape_archive.py:88-117 | a longer pass keeps every row its prefix inserted |
| TapeArchive.InsertSlotsConsistent | tape_interface/src/tape_archive.py:88-117 | the storage-element loop keeps the tables consistent: every tape in its own slot row, drive tapes owned once, EMPTY exactly without a tape |
| TapeArchive.InsertDrivesConsistent | tape_interface/src/tape_archive.py:129-145 | the drive loop keeps the tables consistent and the slots still offered free |
| TapeArchive.GetStateConsistent | tape_interface/src/tape_archive.py:74-150 | a successful get_state on consistent tables leaves them consistent, and every tapeless drive free |
| TapeArchive.EmptyConsistent | tape_interface/src/tape_archive.py:31-67 | the freshly created, empty tables are consistent |
| TapeArchive.GetStateReportsSlots | tape_interface/src/tape_archive.py:88-117 | every storage element of the report has its slot row afterwards |
| TapeArchive.TapeArchive.constructor | tape_interface/src/tape_archive.py:17-29 | the archive works on the database it is given |
| TapeArchive.TapeArchive.InsertStorageElement | tape_interface/src/tape_archive.py:88-117 | the database afterwards is InsertSlot applied to it and no command is issued |
| TapeArchive.TapeArchive.InsertSlotRow | tape_interface/src/tape_archive.py:104-117 | the slot and magazine INSERTs of one storage element leave the database as SlotRows of it |
| TapeArchive.SlotRows | tape_interface/src/tape_archive.py:104-117 | the slot and magazine INSERTs leave the tape and drive tables alone, and a failure is an IntegrityError |
| TapeArchive.TapeArchive.InsertDataTransferElement | tape_interface/src/tape_archive.py:129-145 | the database afterwards is InsertDrive applied to it |
| TapeArchive.TapeArchive.InsertStorageElements | tape_interface/src/tape_archive.py:88-117 | the storage-element loop leaves the database InsertSlots of it |
| TapeArchive.TapeArchive.InsertNextDataTransferElement | tape_interface/src/tape_archive.py:129-145 | one more turn extends the loop's pass by one line |
| TapeArchive.TapeArchive.InsertDataTransferElements | tape_interface/src/tape_archive.py:129-145 | the data-transfer-element loop leaves the database InsertDrives of it |
| TapeArchive.TapeArchive.GetState | tape_interface/src/tape_archive.py:74-150 | the database afterwards and the result are GetStateInsert of the old database, and no command is issued |
| TapeArchive.TapeArchive.GetFreeDrives | tape_interface/src/tape_archive.py:287-305 | a drive is free exactly when it is EMPTY or holds a tape with more bytes written than the size limit |
| TapeArchive.TapeArchive.GetEmptyTapes | tape_interface/src/tape_archive.py:309-327 | a tape is empty exactly when it has a row and its bytes written are below the size limit |
| TapeArchive.TapeArchive.GetFreeSlots | tape_interface/src/tape_archive.py:411-418 | a slot is free exactly when it has a row and no tape names it |
| TapeArchive.TapeArchive.Load | tape_interface/src/tape_archive.py:343-371 | the new state is LoadStep of the old; a drive given a slot holding a tape ends IDLE with that tape |
| TapeArchive.TapeArchive.Unload | tape_interface/src/tape_archive.py:374-408 | the new state is UnloadStep of the old; it succeeds exactly when the drive holds a tape, and then the drive is free and tapeless |
| TapeArchive.TapeArchive.RewindDrive | tape_interface/src/tape_archive.py:470-489 | the new state is RewindStep of the old |
| TapeArchive.TapeArchive.TarFolderToTape | tape_interface/src/tape_archive.py:422-467 | the new state is TarStep of the old; an attached drive with a tape gains one write and ends IDLE, any other drive leaves everything unchanged |
| TapeArchive.TapeArchive.ReadFile | tape_interface/src/tape_archive.py:530-554 | the new state is ReadStep of the old; the drive ends IDLE with exactly one more read and nothing else in its row changed |
| TapeArchive.TapeArchive.LoadEmptyTape | tape_interface/src/tape_archive.py:329-339 | the new state is LoadEmptyTapeStep of the old; it fails exactly when no tape is empty |
| TapeArchive.TapeArchive.LoadTape | tape_interface/src/tape_archive.py:196-242 | the new state is the corrected LoadTapeStep of the old; with no drive given and none free it fails with 'No Free Drives' and changes nothing |
| TapeArchive.TapeArchive.WriteBufferToTape | tape_interface/src/tape_archive.py:268-282 | the new state is WriteBufferStep of the old; it is refused as not attached exactly when the drive is not attached |

## Left out

- Network and RPC front ends (katcp servers, XML-RPC, the workflow and file managers' own services) are not part of this model. The tape server's katcp request wrappers and `set_buffer_size` are therefore left out too.
- The shell commands (`mtx`, `mt`, `tar`, `lsscsi`, `du`, `sudo`) are not run: the robot's status text is a `Report` of its lines, `du` is a `size` parameter, and the commands are appended to an `issued` list.
- The regular expressions over the `mtx status` output are taken as already split into storage-element and data-transfer-element lines.
- `os.chdir`, `print`, logging, `time.sleep` and the database `commit` calls have no effect on the model.
- An exception in the middle of a tape operation leaves the rows written before it; no transaction rollback is modelled.
- tapeinterface.py: `get_file_list`, `end_of_last_tar`, `print_state`, `create_tables` and `close` are left out: they only list tapes, print, or create the empty schema, which `NO_TABLES` stands for.
- tapeinterface.py: the `get_state` refresh at the head of every query and operation is left out, since get_state as written never returns.
- tapeinterface.py: the `magazine` argument of `get_free_drives` and `get_empty_tapes` is left out. Only the whole-library queries are modelled.
- TapeArchive.InsertDrive: tape_archive.py's drive table has no key, so its plain INSERTs add a second row for a repeated drive id; the model keeps one row per drive id, the last inserted.
- tapeinterface.py: `get_free_slots` has no ORDER BY, so its `pop()` takes a slot that SQLite chooses. The model takes the greatest free slot id.
- tape_archive.py: the tape INSERT names the `size` column twice, and the model writes the size once.
- The tape library's "use" column is not modelled.
- tape_archive.py: `get_file_list`, `end_of_last_tar`, `print_state` and `create_tables` are left out for the same reasons. The rest of its operations share the `TapeDatabase` steps; its `load_tape` has both faults of tapeinterface.py's, and the model runs the corrected one of the Findings.
- Floating point and external libraries (katdal, katpoint, telstate, h5py, numpy, md5, pickle and the time conversions) are oracle values carried in the model's datatypes. `_extract_location_from_katdata`, the frequency, bandwidth and duration arithmetic, and `hoursToDegrees` are among them.
- met_extractors.py: the pulsar search, timing and PTUSE extractors, the Obit extractor and the beamformer extractor read FITS, psrcat and VOTable files. The model only has the factory choosing their kinds.
- met_extractors.py (older generation): the katcp sensor read of the tape extractor is left out; the buffer directory is a parameter.
- met_extractors.py: `MeerkatTelescopeTapeProductMetExtractor` (lines 400-458) is left out: its extra key comes from a katcp sensor read over the network, and the rest of its extraction is that of the telescope extractor it extends, which is modelled.
- met_handler.py: `del_prod_met` is left out (a Solr delete); Solr itself is a sequence of documents passed in and returned.
- met_handler.py: a fresh `uuid` is a parameter.
- prod_handler.py: `Uploader.s3_create_bucket`, `set_failed_tokens`, `check_for_multipart` and `upload_size` are left out: each is an S3 or Solr call around the modelled split and transfer.
- prod_handler.py: `Product.mh`, `cleanup`, `set_failed_token`, `set_rdb_metadata`, `get_bucket_stats` (which returns `{}`) and `set_created_on_pruned` are left out, for the same reason.
- prod_handler.py: of `metadata_when_created`, only the ValueError that `rdb_file_prefix`'s `min()` raises on an RDB product with no file match holding ten digits and '_' is modelled (ProdHandler.Next). Its metadata extraction and Solr writes through `set_rdb_metadata`, and the core record the base `Product.metadata_when_created` creates through `create_core_met`, are left out; the status step that follows is modelled.
- prod_handler.py: the parallel executor of `upload` is left out. Only the partition of the file list over workers and the effect of each slice's transfer are modelled.
- Threads, process pools and asyncio are modelled sequentially: the trawlers' uploads run slice by slice, and the order of the first failure is slice order.
- SPEAD streams, the flag writer's `do_capture` and its sensors are left out.
- flag_writer.py: saving a dump never fails in the model. flag_writer.py:210-217 catches the OSError of `makedirs` or `np.save`, logs it and discards the dump, so a failed save differs from a good one only in the file left on disk, which is not modelled; every flushed dump is recorded under its file name.
- The HDF5 file I/O of file_writer.py is left out. Only the dataset shapes and row counts are kept.
- scripts/vis_trawler.py: the main loop's retry and sleep and the `os.walk` time-out are left out. `get_s3_connection` is an oracle, and the directory walk is a parameter.
- ProdHandler.Product.DiscoverTrawlFiles: the walk's time-out in prod_handler.py is left out; the walk is a parameter and is always taken whole.
- FilewriterTrawler.TrawlPass: when reading the details, the RDB rule or an upload raises, the contract gives the error but not the file state left by the steps before it. The clock read by `timeit` is the parameter `seconds`, the elapsed time already truncated by `int()`.
- crawler.py: `_list` reads the object store and is a parameter.
- s3transfer.py: the logging of transfers is left out, and the Source and Storage classes are maps.
- check_failed_directory.py: `move_md5s`, `check_met_extractor`, `write_htaccess`, `show_h5_results`, `run_daemon`, `run_main` and the option parsing are left out: they are file and process I/O around the modelled filters.
- celery-workflowmgr.py: the bodies of the event handlers are left out; they submit celery tasks. Only the dispatch, the queue choice and the exit flag are modelled.
- utilities.py: `json.dumps` of the policy is left out. The policy is kept as a structured value.
- TelescopeModels.TelescopeModel.AddComponents: models the corrected first-wins rule of the Findings; as written a later component of the same name replaces the first (WithComponentsAsWrittenLastWins).
- Ar1Model.CreateModel: built on the corrected add_components; as written a mask name equal to cbf, anc, obs or sdp ends up holding the fixed component added after it.
- Ar1Model.NewModel: built on the corrected add_components; as written a repeated name keeps its last component.
- Ar1Model.ModelEntries: states the corrected first-wins entries; as written the last component of a name wins.
- FilewriterTrawler.TrawlPass: runs the corrected RDB rule; as written a lone .rdb file is uploaded and deleted and the pass then raises TypeError (RdbRuleCounterexample).
- FilewriterTrawler.SendRdbPairs: iterates the corrected RDB rule, for the same reason.
- TapeInterface.TapeMachineInterface.AddDataTransferElement: records a tapeless drive EMPTY where the code writes IDLE (TapelessDriveFree shows the code's rule).
- TapeInterface.TapeMachineInterface.AddNextDataTransferElement: extends the corrected pass, tapeless drives EMPTY.
- TapeInterface.TapeMachineInterface.AddDataTransferElements: runs the corrected pass, tapeless drives EMPTY.
- TapeInterface.TapeMachineInterface.GetState: the corrected get_state, which returns; as written it never returns (GetStateNeverReturns).
- TrawlerProduct.StreamProduct.SetMetadataHandler: the corrected set-up; met_handler.py has no `prod_met_exists`, and its `create_core_met` takes no arguments, so the lookup and creation follow what those calls evidently intend.
- TrawlerProduct.StreamProduct.Call: met_handler.py has no `set_product_transferring` or `set_product_failed`, and its `set_product_received`, `add_ref_original` and `add_ref_datastore` take a metadata dictionary rather than the record id; the request is recorded abstractly, with the record id.
- TrawlerProduct.StreamProduct.ProductMetadata: `add_prod_met` takes a metadata dictionary rather than the record id; the request is recorded abstractly. The extractor choice `_product_extractor` is not modelled: `stream_type_detection`, which product.py imports, is not defined in met_detectors.py.
- SolrClients.DateToIso8601: the date conversion is a total oracle; `strptime` raising ValueError on a two-digit year (the regular expression's second alternative, e.g. "1/1/10") or an impossible date such as 31/02/2010 is not modelled.
- SolrClients.IsoOf: a total oracle, for the same reason.
- MetadataSearch.ToSolrDateFormat: uses the same total oracle, so its ValueError on two-digit years and impossible dates is not modelled.
- MetExtractors.TelescopeExtractionRuns: holds given total oracles; a telstate attribute missing at met_extractors.py:359-367, whose KeyError that code does not catch, is not modelled.
- Strs.AbsPath: no normalisation of '.', '..' or repeated '/'.
- Strs.RelPath: only a path below its base is made relative, and no normalisation is done; os.path.relpath would give a '../' path for any other, and every caller passes a path below its base.
- TapeOps.TapeDatabase.LoadTape: runs the corrected LoadTapeStep; as written a tape asked for by id always raises TypeError (LoadTapeByIdAsWritten), and a chosen drive holding a full tape is loaded without an unload (FullDriveReloaded).
- TapeArchive.TapeArchive.LoadTape: runs the corrected LoadTapeStep, for the same reasons; tape_archive.py:213-228 has both faults.
- TapeTables.TarStep: a folder with no parent in its path ('data' or '/data') makes `os.chdir('')` raise after the drive is marked WRITING, in tapeinterface.py and tape_archive.py alike; the model tars it anyway.

## Findings

| source | as written | input that shows it | evidently intended | confidence | as-written member | corrected member |
|---|---|---|---|---|---|---|
| katsdptape/katsdptape/tapeinterface.py:133 | get_state calls get_free_slots, which calls get_state first at line 449, so the two recurse until the stack is exhausted; print_state (line 169) likewise calls get_state first (line 176) | any status report with no error in its storage elements | get_state reads the free slots without refreshing again | not executed | TapeInterface.GetStateNeverReturns | TapeInterface.Refresh |
| katsdptape/katsdptape/tapeinterface.py:239-250 | `tape` is set to None and then subscripted, so asking for a tape by id always raises TypeError; tape_interface/src/tape_archive.py repeats it at lines 217-228 | load_tape(driveid=1, tapeid='ABC123') | use the location just looked up: return the drive holding the tape, else load its slot | not executed | TapeOps.LoadTapeByIdAsWritten | TapeOps.LoadTapeById |
| katsdptape/katsdptape/tapeinterface.py:235-237 | the test `drive[1] == 'FULL'` never holds, since drive states are EMPTY, IDLE and the like, so a chosen drive holding a full tape is loaded again without an unload | a free drive that is IDLE with a tape past the size limit, and load_tape(slotid=s) (FullDriveReloaded) | unload the chosen drive whenever it holds a tape | not executed | TapeOps.LoadTapeAsWritten | TapeOps.LoadTapeStep |
| katsdptape/katsdptape/tapeinterface.py:165 | a drive line without a tape records the drive IDLE, so it is never among the free drives | a data-transfer element reported `Empty` | record the drive EMPTY, as tape_archive.py does | not executed | TapeInterface.TapelessDriveFree | TapeInterface.GetStateStep |
| katsdpfilewriter/katsdpfilewriter/telescope_model.py:57 | `has_key(component)` tests the object rather than its name, so a second component of the same name overwrites the first | two distinct components both named 'm000' | skip a component whose name is already present | not executed | TelescopeModels.DuplicateNameOverwrites | TelescopeModels.WithComponentsFirstWins |
| katsdpdata/solr_clients.py:96 | `extend(kwargs)` appends the dictionary's keys, so a field filter reaches Solr as a bare field name | search(ProductName='x') | append `CAS.ProductName:x`, as the parsed kwargs give | not executed | SolrClients.KwargKeysOnly | SolrClients.KatSdpSolrClient.Search |
| katsdpflagwriter/scripts/flag_writer.py:224-233 | below FLAG_CACHE_SIZE entries `to_flush` is unbound (NameError); above it the newest entries are flushed and the oldest kept | one cached dump; eleven cached dumps | flush nothing below the limit, and the oldest entries past it | not executed | FlagWriter.FlushAsWrittenCounterexample | FlagWriter.FlushOverflow |
| scripts/check_failed_directory.py:56-60 | removing from the list being iterated skips the element after each removal | two files older than the cutoff in a row | drop every file older than the cutoff | not executed | CheckFailedDirectory.CutoffSkipsNext | CheckFailedDirectory.FilterCutoff |
| katsdpfilewriter/scripts/vis_trawler.py:34-35 | the rule checks `rdb_lite` but not `rdb_full`, so the .rdb file is uploaded and deleted and the upload of None then raises | a finished stream with its .rdb file and no .full.rdb file | send the pair only when both files exist | not executed | FilewriterTrawler.RdbRuleCounterexample | FilewriterTrawler.RdbStepDeletes |
| katsdptrawler/katsdptrawler/product.py:32 | the handler is built as `MetaDataHandler(solr_endpoint)`, but its constructor also needs a product type and a product name, so the set-up raises TypeError and every handler call then raises ProductError | any product made with a Solr endpoint | build the handler for the product's type and name, then read or create its record | not executed | TrawlerProduct.AsWrittenHandlerCalls | TrawlerProduct.CorrectedHandlerCalls |
| scripts/vis_trawler.py:226 | `mh.set_product_transferring` is not a method of the metadata handler, so every ingest raises AttributeError | any product not yet RECEIVED | set the product's status to TRANSFERRING | not executed | VisTrawler.IngestCounterexample | VisTrawler.IngestMetReceived |
| katsdpdata/scripts/celery-workflowmgr.py:72 | `OODTWorkflowManager` is the server class, not an exception, so an unknown event raises TypeError | handle_event('KatFileBogus', {}) | raise an error naming the unknown event | not executed | CeleryWorkflowMgr.UnknownEventAsWritten | CeleryWorkflowMgr.HandleEvent |
| katsdptrawler/katsdptrawler/s3transfer.py:91 | `_put` uses the undefined name `keyname`, so every transfer raises NameError and no source is deleted | any local file with a non-empty payload | use the key name the transferer was built with | not executed | S3Transfer.TransferAsWrittenFails | S3Transfer.S3Transferer.Transfer |
