# Verification of the Logix trend streamer

This project models the PLC side and the client side of the trend streamer for Logix controllers and
proves what the client promises: that it finds the tags and leaf members the PLC really has, that it sets
up and takes down trend objects without leaving anything behind, that polling keeps up with sampling, and
that every sample ends up in its series once and in order. `dafny verify dfyconfig.toml` checks everything.

## How it is organised

- `Bytes`, `Text`: bytes, little-endian integers, results, and the string handling the parsers rely on.
- `CipPath`, `Route`, `Enip`, `EipConnection`: paths, routes, frames, items, replies, and the session and
  connection on top of them, each with the decoder the client lacks.
- `TagRecords`, `Templates`, `TagBrowser`: the symbol table and struct templates as the PLC encodes them,
  paging, and the worklist that resolves struct types.
- `Expand`, `LeafPaths`, `Discovery`: flattening a struct tag, the leaves of a type defined independently,
  and the two put together. `ModelPlc` reads the requests from their bytes and shows that any tables, cut
  into pages and fragments in any way, meet what is assumed of a PLC.
- `TrendMessages`, `TrendPlc`, `TrendInstance`: trend requests, a PLC with a strict order of operations, and
  the object that creates, configures, fills, starts, reads and removes one trend.
- `Sizing`, `PollSchedule`, `TimeSeries`: partition, buffers and sleep; polling as a state machine against
  sampling PLC buffers; unwrapping of the tick counter and the monotone filter.
- `DataStream`, `StreamGuarantees`: the streamer itself, and the results about its whole runs.
- `RecordQueue`, `SampledRun`: PLC buffers with the records in them, and the way of a sample from its
  sampling instant to the plot.
- `WholeSession`: the streamer's and the browser's messages over the session and connection below them.
- `Dialog`: the preview in the configuration dialog.

Code that changes fields or buffers step by step is a class or a loop, proved against a function; results
about many steps are lemmas about those functions.

## Assumptions about the environment

- The network and the PLC are arbitrary but fixed in advance: every request is carried out, refused or lost
  according to verdicts about which nothing is assumed. A request that is refused or lost has
  no effect on the PLC (a reply lost after its request was carried out is not modelled), replies are well
  formed, and requests that clean up are honoured.
- For browsing, a page holds whole records from the cursor on, at least one if more are to follow; record
  ids ascend and fit 16 bits; a fragment of a template that is not the last is not empty.
- For polling, each read takes at most 7 ms, the constant in the code, and the PLC drains the buffer at some
  moment within it; the sleep is as long as asked; every trend samples on its own phase.
- Trend object ids fit 16 bits, which is what the path builder can carry.
- Times are exact integers (microseconds, ticks) or reals.

## What the proofs found

- The reads that drain running instances during setup (src/datastream_logix_trend.cpp:88-92) stand outside
  the `try` block. When one of them throws, the exception leaves `start`, and the instances stay on the PLC
  until the object is destroyed. A poll that throws has the same effect, because `shutdown` then returns at
  once. `DataStreams.Session` shows that a session leaves something behind exactly when a read request is
  lost.
- After a poll that threw, `shutdown` has not joined the polling thread either. Destroying the object then
  removes the instances from the PLC, but the thread, still joinable, is destroyed last, and that calls
  `std::terminate` (`DataStreams.DataStream.Destroy`).
- The poll interval is safe exactly when the fill time covers 7 ms per instance and 13 ms more: the gap
  between two drains of a buffer can be a read longer than a cycle. Counting from start to start of a read,
  5 ms would seem to do. The sizing guarantees enough for two instances, and for three at the rates and
  connection sizes there are. Four can be too many: `StreamGuarantees.FullInstancesOverflow` names
  selections the dialog admits that can lose records, 48 tags at the default rate of 10 ms on the small
  connection among them.
- Where the poll interval is safe, nothing is missing from the plot and nothing is in it twice:
  `SampledRuns.WholeStream` follows every sample from its instant on the PLC to its point in the series.
- `readData` takes the number in a record as a position in its own tag list and never looks at the numbers
  the PLC assigned. That is right exactly when the PLC numbers the tags 1, 2, 3, ... in the order added.
- Browsing never ends exactly when a partial page ends with id 65535: the 16-bit cursor starts over and a
  PLC that answers as before is asked for the same pages for ever.
- A template read of 65536 bytes or more is cut to its length modulo 65536 by the request's length field.
- On a connection that fell back to 504 bytes the number of instances in the dialog's preview is right
  exactly when one instance is enough or both connections allow the same number of tags; the buffer size is
  never right. The poll interval shown is never slower than the real one where one instance is enough;
  from 10 ms on it is slower than the real one exactly for 19 or more tags, with a few exceptions that
  `Dialog.PreviewPollExactlyWhen` lists.

## Model

| member | source | states |
|---|---|---|
| `Discovery.ResolveThenExpand` | src/logix_tag_browser.cpp:379-670 | the main result of discovery: once every reachable type is served and no type contains itself, resolving the types of the browsed tags and then expanding a struct tag lists exactly the dotted paths to the numeric leaves of the PLC's own type, through members that are not internal, each once and depth first; the missing-definition branch is never taken |
| `ModelPlc.Discover` | src/logix_tag_browser.cpp:210-670 | on any PLC made from tables, however it cuts its pages and fragments, browsing returns all visible tags and expanding a struct tag lists exactly its numeric leaves |
| `ModelPlc.ServesEverything` | src/logix_tag_browser.cpp:210-305 | such a PLC meets the assumptions made for browsing |
| `ModelPlc.ServesTypes` | src/logix_tag_browser.cpp:309-377 | it serves every type in its table and the types of their members |
| `ModelPlc.AlwaysProgresses` | src/logix_tag_browser.cpp:328-377 | its fragments that are not the last are never empty |
| `ModelPlc.EndsEverywhere` | src/logix_tag_browser.cpp:226-291 | with ids below 65535 every scope comes to an end |
| `ModelPlc.ListUnderstood` | src/logix_tag_browser.cpp:87-136 | a device reads program and cursor out of every tag list request |
| `ModelPlc.AttributesUnderstood` | src/logix_tag_browser.cpp:309-326 | a device reads the type out of every attribute request |
| `ModelPlc.ReadUnderstood` | src/logix_tag_browser.cpp:328-351 | a device reads type, offset and the 16-bit length out of every template read |
| `Discovery.ResolvedMirrors` | src/logix_tag_browser.cpp:389-620 | what resolving leaves behind is the PLC's own types, and every member type of a kept type is kept too |
| `LeafPaths.ExpandListsLeaves` | src/logix_tag_browser.cpp:649-670 | expanding over definitions that mirror the PLC's types yields every leaf, no other entry, in depth-first order; no type contains itself |
| `LeafPaths.PathsListLeaves` | src/logix_tag_browser.cpp:649-670 | the depth-first enumeration contains a path if and only if it is a leaf (through members whose name does not start with two underscores, down to one of the ten numeric types), and is strictly ascending |
| `LeafPaths.ListOfLeavesIsUnique` | src/logix_tag_browser.cpp:649-670 | two ascending lists of the same paths are the same list, so 'exactly the leaves, in order' determines the result |
| `LeafPaths.LeavesAreTellable` | src/logix_tag_browser.cpp:649-670 | two different leaves of a tag have different dotted names and different encoded symbolic paths |
| `LeafPaths.ClientAgrees` | src/logix_eip.cpp:224-242 | the client takes for numbers exactly the ten elementary numeric types, REAL among them, and for the PLC's own exactly the names that start with two underscores |
| `LeafPaths.NotNumeric` | src/logix_eip.cpp:224-242 | LWORD, STRING and the struct marker are no numbers |
| `LeafPaths.PlainTag` | src/logix_tag_browser.cpp:634-647 | a tag that is no struct is listed itself if its type is numeric, and not at all otherwise |
| `Expand.ExpandMembers` | src/logix_tag_browser.cpp:649-670 | the appending recursion adds exactly the leaves of the type to the result it is given, on every type graph without cycles |
| `Expand.ExpandStructMembers` | src/logix_tag_browser.cpp:634-647 | a struct tag gives its leaves, a numeric tag itself, any other tag nothing; which types are numeric is settled by `LeafPaths.ClientAgrees` |
| `TagBrowser.TagBrowser.ResolveUdts` | src/logix_tag_browser.cpp:379-620 | for any deterministic peer, failing fetches and cyclic graphs included, the worklist stops (4096 minus the table size is its measure), the table holds exactly the fetchable types reachable from the tags' struct types, none whose replies rule it out, and no type is fetched successfully twice |
| `TagBrowser.TagBrowser.ResolveRound` | src/logix_tag_browser.cpp:404-620 | one round keeps the worklist invariant in whatever order the types are tried, and leaves work behind only if it added a definition |
| `TagBrowser.TagBrowser.ResolveType` | src/logix_tag_browser.cpp:408-615 | one type is added with its fetched definition, or skipped; struct members not yet known are put on the worklist |
| `TagBrowser.WalkIsResolved` | src/logix_tag_browser.cpp:389-620 | the fetchable end of every walk along struct members from a root is in a closed table |
| `TagBrowser.OnTrackAtEnd` | src/logix_tag_browser.cpp:389-620 | with an empty worklist the invariant gives the closure in both directions |
| `TagBrowser.Adding` | src/logix_tag_browser.cpp:597-609 | a successful fetch keeps the worklist invariant when the type's unknown members join the worklist |
| `TagBrowser.Skipping` | src/logix_tag_browser.cpp:410-414 | a type that is already there or cannot be fetched may leave the worklist |
| `TagBrowser.SmallSets` | src/logix_tag_browser.cpp:404-620 | 12-bit keys bound the table by 4096 entries, the measure of the worklist |
| `Templates.FetchServed` | src/logix_tag_browser.cpp:420-610 | from the attribute reply over fragmented reads to decoding: a served type whose definitions and names lie within the part a 16-bit length can ask for is fetched and comes out as the PLC defines it |
| `Templates.FetchFailsExactlyWhen` | src/logix_tag_browser.cpp:420-535 | from the replies alone: a type cannot be fetched if and only if its attribute request is lost, refused or answered with fewer than 20 bytes, or size or count is 0, or its template read is lost, refused at once or too short for its member definitions |
| `TagBrowser.ResolvedIsFetchable` | src/logix_tag_browser.cpp:404-620 | no type of that kind is in the table once resolving has ended |
| `Templates.FetchType` | src/logix_tag_browser.cpp:420-615 | the body of the resolving loop: any exception or malformed answer skips the type, everything else yields the decoded definition |
| `Templates.GetTemplate` | src/logix_tag_browser.cpp:328-377 | the fragment loop stops and returns what the replies amount to, including early ends on an error status |
| `Templates.FragmentsAddUp` | src/logix_tag_browser.cpp:328-377 | however a template read is cut into non-empty consecutive fragments, the result is the prefix of the image of the requested length modulo 65536, for every length |
| `Templates.ReadEnds` | src/logix_tag_browser.cpp:328-377 | after any parts that have arrived: enough parts end the read, a lost request is an exception, a refusal keeps what is there, and a last part completes it |
| `Templates.PrefixExactlyWhen` | src/logix_tag_browser.cpp:328-377 | the requested prefix arrives if and only if its length is below 65536 |
| `Templates.DecodeImage` | src/logix_tag_browser.cpp:531-609 | decoding member records and NUL-separated names recovers the type's name (up to a semicolon) and its listed members in order, with all nested struct types |
| `Templates.FieldMeans` | src/logix_tag_browser.cpp:570-597 | a field has the parts its type word was put together from, its info word as array size if it has dimensions, and is internal exactly when its name starts with two underscores |
| `Templates.ParseTemplate` | src/logix_tag_browser.cpp:531-609 | name table, member records and internal members are decoded as specified for any data long enough |
| `Templates.NamesOfTable` | src/logix_tag_browser.cpp:541-567 | splitting a name table with any amount of padding gives the names back |
| `Templates.ParseAttributes` | src/logix_tag_browser.cpp:440-501 | the attribute loop, entries with an error status or cut short included |
| `Templates.AttributesOfData` | src/logix_tag_browser.cpp:440-501 | size and member count are found in a complete attribute reply |
| `Templates.AttributesOfEntries` | src/logix_tag_browser.cpp:456-501 | from up to four entries in any order, refused ones among them, size and count are those of the last entry of their kind, and 0 without one |
| `Templates.TemplateSizeIs` | src/logix_tag_browser.cpp:519-520 | the size asked for is 4 times the definition size less 20 for every definition size below 2^29; the next 2^29 sizes overflow into the sign and ask for nothing; from 2^30 on it repeats |
| `Templates.FetchedTypesAreSmall` | src/logix_tag_browser.cpp:584-601 | nested type ids are 12-bit numbers |
| `Templates.GetTemplateAttribute` | src/logix_tag_browser.cpp:309-326 | the bytes of the attribute request |
| `TagBrowser.TagBrowser.Browse` | src/logix_tag_browser.cpp:210-305 | it fails if and only if the request for a page of the controller or of one of the named programs is lost; otherwise the result is exactly the visible tags of the rows served of the controller and then of each program in the order the controller lists them, the whole tables when the PLC keeps answering; the kept definitions are the closure of the tags returned, without any type whose replies rule it out |
| `TagBrowser.TagBrowser.BrowseScope` | src/logix_tag_browser.cpp:226-291 | paging terminates wherever the PLC cuts its pages, whenever the sequence of cursors has an end; it fails if and only if the request for the page it stops at is lost, and otherwise the tags are those of exactly the rows served, the whole table when the PLC keeps answering |
| `TagBrowser.TagBrowser.BrowsePrograms` | src/logix_tag_browser.cpp:256-292 | the program loop appends the visible tags of each named program in turn, and fails if and only if a page of one of them is lost |
| `TagBrowser.TagBrowser.BrowsePage` | src/logix_tag_browser.cpp:226-251 | one page moves the cursor past exactly the rows it carried |
| `TagBrowser.TagBrowser.ParseTagPacket` | src/logix_tag_browser.cpp:140-206 | a page of arbitrary bytes is read record by record as specified, program names noted, hidden tags dropped |
| `TagBrowser.QualifiedOnWire` | src/logix_tag_browser.cpp:158-167 | what a tag is called leads the PLC back to it: the symbolic path of a program's tag is read as the program and then the tag, that of a controller tag as the tag |
| `TagBrowser.AllTagsOnWire` | src/logix_tag_browser.cpp:210-305 | so does the name of every tag that browsing a PLC with addressable names can return |
| `TagRecords.TagMeans` | src/logix_tag_browser.cpp:153-187 | a tag has the id and the type-word parts of its row, and the first dimension as array size if it has dimensions |
| `TagRecords.ParseEncoded` | src/logix_tag_browser.cpp:140-206 | a page of whole records yields exactly their visible tags and program names in order, and the last id |
| `TagRecords.ParseCut` | src/logix_tag_browser.cpp:149-202 | a page that ends in the middle of a record: the whole records count, and of the last one as much as is there |
| `TagBrowser.VisibleIsExact` | src/logix_tag_browser.cpp:51-62 | the visible tags are those of the unfiltered rows, every one of them, once, in the order of their instance ids |
| `TagRecords.FilteredExactlyWhen` | src/logix_tag_browser.cpp:51-62 | a tag is hidden if and only if one of the five markers stands somewhere in its full name |
| `TagRecords.ProgramsAreNamed` | src/logix_tag_browser.cpp:189-193 | the programs are the controller's rows whose name begins with `Program:`, hidden ones included |
| `TagRecords.TypeWordFields` | src/logix_tag_browser.cpp:176-181 | flags, dimensions and type code are read from the bits of the type word they are packed into |
| `TagBrowser.CursorAfter` | src/logix_tag_browser.cpp:240-243 | the cursor after a page passes the rows served so far and no other |
| `TagBrowser.EndsExactlyWhen` | src/logix_tag_browser.cpp:226-250 | browsing a scope comes to an end if and only if no partial page on the way ends with id 65535 |
| `TagBrowser.LostIsLast` | src/logix_tag_browser.cpp:226-251 | the page browsing stops at is the only one that can be lost: whether one is lost is decided there |
| `TagBrowser.CursorsRepeat` | src/logix_tag_browser.cpp:226-250 | after such a page every request is made over again: the sequence of cursors is periodic |
| `TagBrowser.CursorsAdvance` | src/logix_tag_browser.cpp:226-250 | without such a page every cursor is past at least one more row than the one before |
| `TagBrowser.LowIdsEnd` | src/logix_tag_browser.cpp:226-250 | a table with ids below 65535 is always browsed to its end |
| `TagBrowser.OneRowForEver` | src/logix_tag_browser.cpp:226-250 | a table of the single row 65535, served as the PLC may serve it, for which cursor 0 is asked without end |
| `TagBrowser.BuildTagListRequest` | src/logix_tag_browser.cpp:87-136 | the bytes of the tag list request for every program name and cursor |
| `Sizing.SizingBound` | src/datastream_logix_trend.cpp:321-338 | with neither cap below 1, any number of tags up to the maximum leaves at least four whole periods per buffer and more than four fifths of the fill time asked for, in spite of the floors |
| `Sizing.MaxTagsIsLargest` | src/datastream_logix_trend.cpp:321-338 | a number of tags is allowed if and only if it is one, or fills the buffer no faster than asked for and leaves room for four periods |
| `Sizing.BufferFits` | src/datastream_logix_trend.cpp:340-361 | the buffer is at least one record and fits one response if and only if the connection has at least 30 bytes; it is whole records, less than one short of the payload, or 480 bytes without a connection size to go by; the first poll interval is half of the fill time in whole milliseconds, between 5 and 200 |
| `Sizing.BalancedPartition` | src/datastream_logix_trend.cpp:73-98 | the chunks are non-empty, at most the per-instance size, all but the last full, the last at least per - num + 1, and put together they are the selected tags |
| `Sizing.BalancedSizes` | src/datastream_logix_trend.cpp:73-77 | the balanced size never exceeds the maximum and the subtraction for the last chunk never underflows |
| `Sizing.CycleFits` | src/datastream_logix_trend.cpp:133-159 | reads and sleep of a cycle fit into the fill time if and only if 7 ms per instance and 5 ms more do, and with one further read if and only if 13 ms more do |
| `Sizing.SleepTakesHalf` | src/datastream_logix_trend.cpp:148-158 | the sleep is half of what 7 ms per instance leave of the fill time, in whole milliseconds, between 5 and 200 |
| `Sizing.PollIntervalMono` | src/datastream_logix_trend.cpp:148-158 | more fill time never means a shorter sleep |
| `StreamGuarantees.SafeExactlyWhen` | src/datastream_logix_trend.cpp:133-159 | what a start sets up loses no record in any run, whatever the sampling phases and with the PLC draining the buffer anywhere within reads of up to 7 ms, if and only if the fill time covers 7 ms per instance and 13 ms more; with the drain always at the start of the read, if and only if it covers 5 ms more |
| `StreamGuarantees.ThreeInstancesAreSafe` | src/datastream_logix_trend.cpp:73-159 | at the rates the dialog offers, on either connection size, three instances never lose a record |
| `StreamGuarantees.TwoInstancesAreSafe` | src/datastream_logix_trend.cpp:73-159 | for any rate and connection the sizing is enough for two instances |
| `StreamGuarantees.FullInstancesOverflow` | src/datastream_logix_trend.cpp:73-159 | three is the most that is safe in general: at the dialog's default of 10 ms on the small connection 48 tags, which make four instances, lose records in some run; so do, at 1 ms, 45 tags on the large connection and 6 on the small one, and 54 on the large one even when every read is served at once |
| `StreamGuarantees.ScheduleIsConfigured` | src/datastream_logix_trend.cpp:73-159 | the schedule a start sets up satisfies the assumptions of the polling analysis |
| `PollSchedule.NoOverflow` | src/datastream_logix_trend.cpp:133-159 | over any unbounded run from drained buffers no buffer exceeds its capacity and no sample is lost, when the fill time covers the longest gap between two drains |
| `PollSchedule.SafeExactlyWhen` | src/datastream_logix_trend.cpp:133-159 | that condition is necessary and sufficient, for every bound on how late within a read the PLC may drain |
| `PollSchedule.OverflowIsReachable` | src/datastream_logix_trend.cpp:133-159 | otherwise there are sampling phases below the sample period and a run that lose a record |
| `PollSchedule.RunIsTimely` | src/datastream_logix_trend.cpp:217-316 | between reads, every buffer was drained no longer ago than the rest of its cycle, the sleep and the reads since |
| `PollSchedule.RunIsExact` | src/datastream_logix_trend.cpp:217-316 | as long as nothing is lost a buffer holds exactly what was sampled since its last drain |
| `PollSchedule.GapFits` | src/datastream_logix_trend.cpp:133-159 | with the computed sleep the longest gap fits exactly under the 5 ms and the 13 ms conditions |
| `PollSchedule.InstantsInInterval` | src/datastream_logix_trend.cpp:145-146 | a gap of at most n sample periods contains at most n sampling instants, whatever the phase |
| `RecordQueues.RunCountsRecords` | src/datastream_logix_trend.cpp:217-316 | buffers that hold the records themselves, newest dropped when full, have at every moment of every run as many as the schedule counts |
| `RecordQueues.RunIsComplete` | src/datastream_logix_trend.cpp:217-316 | as long as nothing is lost, each read of any run takes out exactly what its instance has sampled since the read before, all of it and in order |
| `DataStreams.Session` | src/datastream_logix_trend.cpp:26-204 | start, any number of poll cycles and shutdown leave the PLC's trend table as it was if and only if none of the read requests on the way is lost, whatever else is refused or lost; every request sent kept to the PLC's strict order; and when a session streams and loses no read, its requests are exactly, for each instance, a read of every earlier one and then its setup, then a read of every instance for each cycle, then the removal of every instance |
| `DataStreams.DataStream.Start` | src/datastream_logix_trend.cpp:26-180 | whatever requests are refused or lost, at any instance and tag, either every instance runs with the balanced chunk, rate, buffer and bindings intended for it and the sleep is the computed one, after exactly the requests that read every earlier instance before setting up the next; or the PLC's table is unchanged; or an exception escaped, and then the last request was a read of an instance already running, and it was lost, as no read request is in the other cases; when no request fails and every name can be encoded, it streams; on a PLC that carries everything out and numbers tags in order, with room for the trends, it streams with every tag under its position unless a read is lost |
| `DataStreams.LeftBehind` | src/datastream_logix_trend.cpp:26-204 | a session that streams, loses its first read and leaves a trend on the PLC and a polling thread that is not joined |
| `DataStreams.DataStream.StartAll` | src/datastream_logix_trend.cpp:85-121 | the chunk loop with its all-or-nothing outcome: when it streams it has sent, for each chunk, one read of every earlier instance and then the setup of the new one; an exception escapes if and only if one of these reads is lost |
| `DataStreams.DataStream.AddTrend` | src/datastream_logix_trend.cpp:94-120 | one more instance on top of those running, after exactly the requests of its setup, or everything taken down |
| `DataStreams.NewInstance` | src/datastream_logix_trend.cpp:100-107 | a new instance runs on the PLC as asked for after exactly the requests of its setup, or can be undone |
| `DataStreams.DataStream.GiveUp` | src/datastream_logix_trend.cpp:109-120 | an instance that did not start is taken down first, then all the others; the PLC's table is what it was |
| `DataStreams.DataStream.DrainAll` | src/datastream_logix_trend.cpp:88-92 | during setup every running instance is read once, in order; it ends well if and only if none of these reads is lost, and otherwise at the first that is; nothing changes on the PLC |
| `DataStreams.DataStream.ClearTrends` | src/datastream_logix_trend.cpp:196 | destroying the instances takes each of their trends off the PLC, with exactly the requests of their removal, and restores the table |
| `DataStreams.DataStream.Shutdown` | src/datastream_logix_trend.cpp:182-204 | a running stream is taken down completely, with exactly the requests of the removal of its instances; after a poll that threw, nothing is sent or cleaned up and the polling thread is not joined |
| `DataStreams.DataStream.Destroy` | src/datastream_logix_trend.cpp:21-24 | destruction restores the PLC's table even after an escaped start or a poll that threw; after a poll that threw, and only then, the polling thread is destroyed without having been joined, which ends the process |
| `DataStreams.PushLayer` | src/datastream_logix_trend.cpp:102-107 | a further running instance leaves the trends of the others in place |
| `DataStreams.LayersShow` | src/datastream_logix_trend.cpp:85-121 | as long as an instance is left over the PLC's table differs from the one before |
| `DataStreams.TightestInstance` | src/datastream_logix_trend.cpp:138-143 | the largest instance found by the loop has exactly the balanced number of tags |
| `DataStreams.BalancedShape` | src/datastream_logix_trend.cpp:73-98 | the chunks put together are the selection and the first one is full |
| `DataStreams.DataStream.SetPollInterval` | src/datastream_logix_trend.cpp:130-159 | the sleep is the one the polling analysis assumes, for the balanced chunks |
| `DataStreams.DataStream.MaxTagsInAny` | src/datastream_logix_trend.cpp:138-143 | the largest tag count among the instances |
| `DataStreams.DataStream.PollCycle` | src/datastream_logix_trend.cpp:217-316 | one pass reads every instance in order until one throws, ends the streaming in that case and only then, takes in exactly what the replies carry, and leaves the PLC as it is; these reads are all it sends |
| `DataStreams.DataStream.PollingLoop` | src/datastream_logix_trend.cpp:211-317 | the polling thread: cycle after cycle until one throws, leaving the PLC as it is; while none throws its requests are a read of every instance for each cycle |
| `DataStreams.DataStream.PollOne` | src/datastream_logix_trend.cpp:223-297 | one instance: one read of it is sent; what its reply carries is taken in, nothing on a refusal, an exception when the request is lost |
| `DataStreams.DataStream.TakeSamples` | src/datastream_logix_trend.cpp:237-275 | all samples of a read are taken in, in order, each one either accepted or skipped |
| `DataStreams.DataStream.TakeSample` | src/datastream_logix_trend.cpp:239-274 | the per-sample code does what the time-series specification says, and accepts a sample exactly when its series grows; what that means in microseconds is `TimeSeries.ObserveInMicroseconds` |
| `DataStreams.DataStream.SeriesIncrease` | src/datastream_logix_trend.cpp:264-274 | at every moment of every session every series is strictly increasing in time and no longer than 2^32 points |
| `StreamGuarantees.ExactlyOnceFromTheWire` | src/datastream_logix_trend.cpp:223-275 | from the bytes of any number of overlapping reads, interleaved with other instances and tags, a tag's series is its true sample stream up to the furthest sample delivered: each sample once, in order, at its exact relative time; the windows are carried by the records with the PLC's number for the tag |
| `StreamGuarantees.StreamExactlyOnce` | src/datastream_logix_trend.cpp:211-317 | after any number of answered poll cycles the plotted series of a tag is its true sample stream up to the furthest sample delivered, when the PLC's numbers are the tags' positions |
| `SampledRuns.WholeStream` | src/datastream_logix_trend.cpp:133-316 | from the sampling instants to the plot: when the fill time covers the longest gap between two drains, in any run and for any phases the plotted series of a tag is everything sampled of it from the beginning of the polling to the last read of its instance, each sample once, in order, any two of them apart by their number of sampling periods to within 128 microseconds, at any rate of at least one clock tick and within one turn of the counter |
| `SampledRuns.StampsApart` | src/datastream_logix_trend.cpp:214-262 | the PLC's time stamps of any two samples, in ticks of 128 us, are apart by their number of sampling periods to within one tick |
| `SampledRuns.TimesApart` | src/datastream_logix_trend.cpp:214-262 | so are the times at which the true stream has them, in microseconds |
| `SampledRuns.TwoReads` | src/datastream_logix_trend.cpp:133-316 | a run to which this applies: one tag at 10 ms on the small connection, of which the second read delivers 20 samples |
| `SampledRuns.SampledStream` | src/datastream_logix_trend.cpp:133-316 | the same of the streamer, over any number of cycles whose reads return what the PLC has sampled, when the fill time covers 7 ms per instance and 13 ms more |
| `SampledRuns.StartCarries` | src/datastream_logix_trend.cpp:73-159 | what a start sets up on a PLC that numbers tags in order, for a selection with distinct names, is what these results assume |
| `SampledRuns.RunMatches` | src/datastream_logix_trend.cpp:217-275 | in a run without loss the reads of an instance deliver a tag's samples in windows that follow on each other without a gap, up to the last read |
| `SampledRuns.RunIsPolled` | src/datastream_logix_trend.cpp:217-316 | reads that go round the instances, as a schedule of single reads and as the streamer's cycles, are the same reads |
| `SampledRuns.SampledObs` | src/logix_trend.cpp:153-177 | what a reply with all samples of a stretch of instants yields for one tag is that stretch of its samples |
| `SampledRuns.SessionAttributed` | src/logix_trend.cpp:153-177 | with tags numbered in the order they were added every reply of every run is attributed correctly |
| `SampledRuns.PlottedOnce` | src/datastream_logix_trend.cpp:26-316 | a session that starts, is answered twice with the same record, attributes it to its tag and plots it once |
| `StreamGuarantees.Stream` | src/datastream_logix_trend.cpp:211-317 | cycles whose reads are all answered keep the streamer running and take in exactly the answers to its polls |
| `StreamGuarantees.ArrivedIsAnswered` | src/datastream_logix_trend.cpp:223-298 | what a cycle takes in are the answers to its polls, instance by instance |
| `StreamGuarantees.ProjectRecords` | src/logix_trend.cpp:153-177 | what a read adds for a tag are the records that carry its number, decoded |
| `StreamGuarantees.ProjectOthers` | src/datastream_logix_trend.cpp:237-242 | a read of an instance without the tag adds nothing to its series |
| `TimeSeries.ExactlyOnce` | src/datastream_logix_trend.cpp:237-275 | overlapping in-order windows spanning less than one turn of the counter give the deduplicated stream |
| `TimeSeries.ExactlyOnceInterleaved` | src/datastream_logix_trend.cpp:237-275 | the same with any other tags' samples in between |
| `TimeSeries.SeriesIsRunningMaxima` | src/datastream_logix_trend.cpp:243-274 | on any input the emitted points are exactly the strict running maxima of the unwrapped counter, at their exact times |
| `TimeSeries.ObserveInMicroseconds` | src/datastream_logix_trend.cpp:214-262 | a point lies behind the host time of the tag's first sample by 128 us for every tick since, modulo 2^32 ticks |
| `TimeSeries.TimeInMicroseconds` | src/datastream_logix_trend.cpp:214-262 | a tick is 128 us |
| `TimeSeries.SeriesIncreases` | src/datastream_logix_trend.cpp:264-274 | a series is strictly increasing and has at most 2^32 points |
| `TimeSeries.DeltaIsModular` | src/datastream_logix_trend.cpp:253-261 | both branches of the counter difference are subtraction modulo 2^32 |
| `TimeSeries.TagsAreIndependent` | src/datastream_logix_trend.cpp:240-241 | state and series of a tag depend on its own samples only |
| `TimeSeries.IngestAppend` | src/datastream_logix_trend.cpp:223-298 | taking samples in read by read, and cycle by cycle, equals taking them in all at once |
| `TrendInstances.TrendInstance.Start` | src/logix_trend.cpp:71-135 | on success the trend runs with the rate, buffer and bindings asked for, after exactly the requests create, configure, add each tag, start; on a refusal at any step everything is undone; on an exception what is left can be undone by stop; it succeeds when no request fails and every name can be encoded, and on a PLC that carries everything out in order the tags get their positions as numbers |
| `TrendInstances.TrendInstance.Furnish` | src/logix_trend.cpp:84-134 | everything after the trend was created, with all ways out |
| `TrendInstances.TrendInstance.AddTags` | src/logix_trend.cpp:99-118 | the binding loop with its rollback in reverse order, at any tag |
| `TrendInstances.TrendInstance.UndoTags` | src/logix_trend.cpp:106-114 | a refused tag: what was bound is removed, last first, and the trend is deleted |
| `TrendInstances.TrendInstance.BindTag` | src/logix_trend.cpp:102-117 | one tag is bound under the number reported, or nothing has changed |
| `TrendInstances.TrendInstance.Rollback` | src/logix_trend.cpp:107-112 | bound tags are removed last first and the trend is deleted, in an order the PLC accepts |
| `TrendInstances.TrendInstance.Launch` | src/logix_trend.cpp:120-134 | the last step of start and its rollback |
| `TrendInstances.TrendInstance.Stop` | src/logix_trend.cpp:182-226 | from whatever state start has left, the PLC's table is what it was without the trend, with requests in the order the PLC insists on; stopping again sends nothing |
| `TrendInstances.TrendInstance.Unbind` | src/logix_trend.cpp:203-216 | exactly the numbered tags are removed, last first |
| `TrendInstances.TrendInstance.CreateTrend` | src/logix_trend.cpp:230-259 | a successful create names the new trend; otherwise nothing has changed on either side |
| `TrendInstances.TrendInstance.SetTrendAttributes` | src/logix_trend.cpp:261-281 | the rate reaches the trend exactly when status 0 comes back |
| `TrendInstances.TrendInstance.AddTagTo` | src/logix_trend.cpp:283-318 | the tag's symbolic path is bound under the number reported, exactly when status 0 comes back; a refusal leaves no number behind; an overlong path is refused |
| `TrendInstances.TrendInstance.StartTrendObject` | src/logix_trend.cpp:320-332 | a stopped trend with bindings is started exactly when status 0 comes back |
| `TrendInstances.TrendInstance.StopTrendObject` | src/logix_trend.cpp:334-346 | a running trend is stopped |
| `TrendInstances.TrendInstance.RemoveTagFrom` | src/logix_trend.cpp:348-364 | a binding is removed from a stopped trend |
| `TrendInstances.TrendInstance.DeleteTrend` | src/logix_trend.cpp:366-383 | an empty stopped trend is deleted and forgotten |
| `TrendInstances.TrendInstance.ReadSamples` | src/logix_trend.cpp:137-180 | no samples unless running; an exception for a lost request; none for a refusal; otherwise the reply decoded |
| `TrendInstances.BindNext` | src/logix_trend.cpp:115 | the number the PLC reports adds one binding to those of the tags before |
| `TrendInstances.UnbindLast` | src/logix_trend.cpp:203-216 | removing the last numbered tag leaves the bindings of the tags before it |
| `TrendInstances.BindingsInOrder` | src/logix_trend.cpp:115 | bindings under 1, 2, 3, ... leave the next number free |
| `TrendPlc.Link.SendCip` | src/logix_eip.cpp:608-647 | seen from the trend objects: a request the PLC understands is carried out, refused or lost as a whole, and recorded together with whether the strict order allowed it; the table is always what the messages sent have made of it |
| `TrendPlc.WillingCarriesOut` | src/logix_trend.cpp:230-383 | there is a PLC that carries everything out, with an unused id for every trend and the numbers 1, 2, 3, ... for its tags |
| `TrendMessages.RequestRoundTrip` | src/logix_trend.cpp:230-383 | the PLC reads out of every encoded trend request the request that was meant |
| `TrendMessages.OversizedPathRefused` | src/logix_trend.cpp:288-297 | a symbolic path too long for its length byte makes a message the PLC does not understand |
| `TrendMessages.DecodeSamples` | src/logix_trend.cpp:153-177 | whole records are decoded, unknown numbers skipped, a partial record at the end ignored |
| `TrendMessages.SamplesOfRecords` | src/logix_trend.cpp:153-177 | a response decodes to the samples of its whole records with a known number, in order; a record cut short at the end is left out |
| `TrendMessages.AttributionExactlyWhen` | src/logix_trend.cpp:162-169 | every record is attributed to the tag it belongs to if and only if the PLC numbered the tags 1, 2, 3, ... in the order they were added |
| `TrendMessages.IntegerRoundTrip` | src/logix_trend.cpp:385-428 | every integer in the range of its type survives the four value bytes, whatever those beyond its width hold |
| `TrendMessages.RealRoundTrip` | src/logix_trend.cpp:416-420 | a REAL is read as single precision from its four bytes, and no other type is |
| `Enip.StreamReassembly` | src/logix_eip.cpp:804-850 | taking frames off the byte stream gives back exactly the messages sent and leaves what follows untouched |
| `Enip.RecvFrames` | src/logix_eip.cpp:840-850 | receiving one frame after the other from any portions of the stream returns the frames as they were sent and leaves the bytes behind them pending |
| `Enip.Socket.RecvEnip` | src/logix_eip.cpp:840-850 | however the stream is cut into portions, one call takes exactly the first frame of the stream; it succeeds if and only if the frame is complete, when no receive fails |
| `Enip.Socket.RecvExact` | src/logix_eip.cpp:822-838 | exactly the bytes asked for, in order, and none of the next |
| `Enip.BuildEnipHeader` | src/logix_eip.cpp:804-820 | the 24-byte header and the data |
| `Enip.ParsersFindTheirItem` | src/logix_eip.cpp:852-903 | on every well-formed item list the parsers return the first data item of their type, wherever it stands |
| `Enip.ParseSendRRResponse` | src/logix_eip.cpp:852-876 | the item search on arbitrary bytes, with its error cases |
| `Enip.ParseSendUnitResponse` | src/logix_eip.cpp:878-903 | the same for connected data, with the sequence count dropped and nothing found answered by nothing |
| `Enip.UnitEndToEnd` | src/logix_eip.cpp:608-646 | a connected message survives packet, frame and stream |
| `Enip.RREndToEnd` | src/logix_eip.cpp:687-713 | an unconnected message survives packet, frame and stream |
| `Enip.ReplyRoundTrip` | src/logix_eip.cpp:165-185 | status, first extended status word and data are read back from every encoded reply |
| `Enip.ParseCipStatus` | src/logix_eip.cpp:165-185 | the reply header on arbitrary bytes |
| `EipConnections.Visit` | src/logix_eip.cpp:359-802 | connecting, sending and closing leave the device's session and connections as they were, whichever steps failed |
| `WholeSessions.WholeSession` | src/datastream_logix_trend.cpp:26-204 | a whole streaming session over a CIP connection, from connecting to closing: the device's session and CIP connections are as before, its trends are those the trend account ends with, and they are as before if and only if no read request is lost, as long as every message fits a packet |
| `WholeSessions.SendOne` | src/logix_eip.cpp:608-647 | a trend message sent over the connection has the effect and gets the answer that the trend account gives it |
| `WholeSessions.SendAll` | src/logix_eip.cpp:608-647 | so have all messages of a session, one after the other |
| `WholeSessions.Ask` | src/logix_eip.cpp:649-714 | whatever was asked before, a browser's request sent unconnected, along a route or not, is answered as the peer of the browsing results answers it, and leaves the trends alone |
| `WholeSessions.RequestsArePlain` | src/logix_tag_browser.cpp:87-351 | none of the browser's requests is taken for one to the connection manager or for a wrapped one |
| `EipConnections.EipConnection.Connect` | src/logix_eip.cpp:359-462 | it succeeds if and only if the device is reachable, admits a session and grants a large connection or, after turning that down, a standard one; the connection size is the one granted; whatever was set up by a failed attempt can be closed |
| `EipConnections.EipConnection.ForwardOpen` | src/logix_eip.cpp:485-606 | the fallback from 4002 to 504 bytes: which size is held is decided by which request the device granted; the second request is sent exactly when the first is refused; the device holds the connection for the route's path, under the id the client has proposed |
| `EipConnections.EipConnection.TryOpen` | src/logix_eip.cpp:501-597 | one attempt; afterwards the device holds the connection with the size the client counts on, or nothing new |
| `EipConnections.EipConnection.RegisterSession` | src/logix_eip.cpp:464-483 | the device admits a session only for a request with protocol version 1 and no options; the session number is the device's |
| `EipConnections.EipConnection.Close` | src/logix_eip.cpp:767-802 | exactly this client's session, read by the device out of the unregister frame, and its connection are gone from the device; closing again does nothing |
| `EipConnections.EipConnection.ForwardClose` | src/logix_eip.cpp:716-765 | the connection this client opened is removed and no other |
| `EipConnections.EipConnection.SendCip` | src/logix_eip.cpp:608-647 | the device gets exactly this message on this connection with the next sequence count, modulo 2^16, and its answer comes back; without a connection nothing is sent |
| `EipConnections.EipConnection.SendUnconnected` | src/logix_eip.cpp:649-714 | the device gets the message and the route it is to be sent on, and its answer comes back; a refusal comes back as its status; without a socket, a session or a route that can be encoded nothing arrives |
| `EipConnections.EipConnection.SendFrame` | src/logix_eip.cpp:687-713 | the exchange of one unconnected frame: it arrives, is refused or is lost as a whole, and without a session nothing arrives |
| `EipConnections.OpenRoundTrip` | src/logix_eip.cpp:503-547 | the device reads out of an open request every field of it: the size the client assumes afterwards, connection ids, serial number, vendor, originator, time-outs, rates, transport class, and the path |
| `EipConnections.CloseRoundTrip` | src/logix_eip.cpp:723-742 | the device reads serial number, vendor, originator and path from a close request, the ones the connection was opened with |
| `EipConnections.UnwrapRoundTrip` | src/logix_eip.cpp:666-684 | message and route are recovered from the unconnected-send wrapper, padding included |
| `EipConnections.BuildUnconnected` | src/logix_eip.cpp:656-685 | no wrapper on a direct connection, the wrapper with the route otherwise |
| `EipConnections.UnitDecoded` | src/logix_eip.cpp:615-630 | connection id, sequence count and message are recovered from the packet |
| `EipConnections.OwnConnectionRemoved` | src/logix_eip.cpp:728-742 | closing by serial number, vendor and originator removes one connection when these are unique |
| `CipPath.ClassInstanceRoundTrip` | src/logix_eip.cpp:82-111 | class, instance and rest are read back from every logical path |
| `Bytes.ByteOrder` | src/logix_eip.cpp:47-72 | two- and four-byte numbers go out and come in with the low byte first |
| `CipPath.BuildCipPath` | src/logix_eip.cpp:82-111 | 8- and 16-bit forms, and no instance segment for a negative instance |
| `CipPath.SymbolicRoundTrip` | src/logix_eip.cpp:113-163 | reading the segments of a printed tag path gives its components and indices back |
| `CipPath.SymbolicInjective` | src/logix_eip.cpp:113-163 | two tag paths with the same text or the same bytes are the same |
| `CipPath.BracketsRead` | src/logix_eip.cpp:121-133 | what stands between the first bracket and the next closing one is the index or its exception; what follows is dropped |
| `CipPath.NoIndexRead` | src/logix_eip.cpp:121-133 | a name without a bracket has no index, nor has one whose bracket is not closed, which is cut there |
| `Text.StoiReads` | src/logix_eip.cpp:131 | the conversion of numbers: white space, a sign, digits and any further text give the number, or an exception when it does not fit 32 bits |
| `Text.StoiRefuses` | src/logix_eip.cpp:131 | without digits it is an exception |
| `Text.DigitsAre` | src/logix_eip.cpp:131 | digits are the ten there are |
| `CipPath.SymbolicPathIsEven` | src/logix_eip.cpp:113-163 | the path fills whole 16-bit words for any text |
| `CipPath.BuildSymbolicSegment` | src/logix_eip.cpp:113-163 | the builder on arbitrary text, errors of the index conversion included |
| `Route.RouteTextRoundTrip` | src/logix_eip.cpp:268-305 | parsing the printed form of a route gives the route back, for every 32-bit port |
| `Route.RouteWithBlanks` | src/logix_eip.cpp:280-289 | spaces and tabs around the values, in any number, change nothing |
| `Route.RoutePathRoundTrip` | src/logix_eip.cpp:307-346 | decoding the built path gives the route back |
| `Route.RouteEndToEnd` | src/logix_eip.cpp:268-346 | from the text typed to the bytes sent and back |
| `Route.ParseRouteString` | src/logix_eip.cpp:268-305 | the tokeniser and the pairing on arbitrary text, with their errors |
| `Route.BuildRoutePath` | src/logix_eip.cpp:307-346 | the builder on arbitrary routes; its output is always even |
| `Route.AppendHop` | src/logix_eip.cpp:326-342 | testing the padding on the whole path pads each segment as if it stood alone |
| `Dialog.PreviewAgrees` | src/logix_config_dialog.cpp:638-655 | on a full-size connection the preview shows the instances and buffers the streamer will use, and never a longer poll interval than the streamer's |
| `Dialog.PreviewExactlyWhen` | src/logix_config_dialog.cpp:609-640 | on the 504-byte fallback the number of instances shown is the streamer's if and only if one instance is enough there, or both connections allow the same number of tags in one |
| `Dialog.FallbackIsEqualOrHalf` | src/logix_config_dialog.cpp:609-640 | the fallback connection allows as many tags per instance as the large one, or at most half as many |
| `Dialog.PreviewPollExactlyWhen` | src/logix_config_dialog.cpp:642-655 | on the fallback, for whole-millisecond rates from 10 ms on and up to the 256 tags the dialog admits, the preview promises no slower poll than the streamer's if and only if at most 18 tags are selected, or 25 to 27 at 13 ms or slower, or the rate is so slow that both are at their limit: 4 times the rate covers 400 ms and 7 ms for each group of 12 tags |
| `Dialog.SingleInstancePoll` | src/logix_config_dialog.cpp:642-655 | on the fallback, at any whole-millisecond rate, the preview never promises a slower poll than the streamer's where one instance is enough |
| `Dialog.PollsCompare` | src/logix_config_dialog.cpp:644-655 | the comparison of the two intervals at any rate, as a condition on the free time of both |
| `Dialog.PreviewBufferNeverAgrees` | src/logix_config_dialog.cpp:586-595 | on the fallback the buffer shown is never the one allocated |
| `Dialog.PreviewFallsShort` | src/logix_config_dialog.cpp:609-655 | 20 tags at 10 ms: the preview shows one instance polled every 16 ms where the streamer runs two polled every 13 ms; a single tag is polled more slowly than shown |
| `Dialog.PreviewPollIsPollInterval` | src/logix_config_dialog.cpp:644-655 | the preview's formula is the streamer's |
| `Dialog.CountTags` | src/logix_config_dialog.cpp:611-630 | the counting walk counts the selected tags that have a type code |
| `Dialog.Collect` | src/logix_config_dialog.cpp:472-496 | the collecting walk lists the ticked tags depth first |
| `Dialog.PreviewCount` | src/logix_config_dialog.cpp:611-630 | the preview's count never exceeds the selection and equals it if and only if every selected tag has a type code |

## Left out

- Floating point: fill times, sizes and series times are exact here; the rounding of the `double` computations and of REAL values is not modelled (a REAL is kept as its 32 bits).
- Sockets, non-blocking connect, timeouts and random numbers: a socket is a sequence of received portions, reachability and random ids are parameters.
- Threads: polling is a sequence of cycles; the mutex and a shutdown in the middle of a cycle are not modelled.
- Reads beyond the end of a reply in the item parsers are an error here; the C++ behaviour is undefined.
- The Qt dialog, tree population, filtering, saving and restoring state, progress messages and debug output.
- Type-name text (`lookupTypeName`, `cipTypeName`, `cipTypeSize`) and string plot data.
- Array index text with more than one dimension: parsed as the code parses it, but without a round trip.
- DataStreams.DataStream.Start: does not model a restart after an escaped start or a poll that threw, because the instances left over refer to a connection that has been destroyed by then; asks for a non-empty selection, which the dialog guarantees; clears the series but keeps the time states when the connection fails, as the code does.
- DataStreams.Session: takes the host times of the cycles as an argument, none of them negative, and sleeps are left to PollSchedule.
- TagBrowser.TagBrowser.ResolveRound: leaves the order of the types open, where the C++ set is walked in ascending order; the result holds for every order.
- TagBrowser.TagBrowser.Browse: asks that every scope comes to an end, because the code does not terminate otherwise; assumes that a request gets the same answer whenever it is sent, so a symbol table that changes while it is browsed is not modelled.
- Expand.ExpandMembers: asks for a ranking that shows the type graph to be free of cycles; the code does not terminate otherwise.
- EipConnections.EipConnection.SendUnconnected: limits the message to what fits one frame with its wrapper.
- EipConnections.EipConnection.Connect: asks that the encoded route fits the one-byte length of a path, and does not model the pause after opening.
- PollSchedule.NoOverflow: starts from drained buffers, so what is lost while the last instances are being set up is not counted.
- TrendPlc.Link.SendCip: leaves out framing, sequence count and the not-connected error of `sendCip`, which EipConnections models; a trend object only sees a request answered, refused or lost, and WholeSessions shows that the same messages over a connection come to the same.
- WholeSessions.WholeSession: asks that the device lets through every request after the connection is open (which read requests and answers are lost is up to the trend account), and says nothing about a session with a message too long for a packet, which takes a tag name of tens of thousands of bytes.
- WholeSessions.Ask: an answer too long for a packet counts as lost.
- SampledRuns.SampledStream: asks that every read is answered, with a clock that counts ticks of 128 us from the same origin for all tags of an instance.
- Templates.FetchServed: does not say what becomes of a type whose definitions or names lie beyond the part a 16-bit length can ask for; the read is then cut short as Templates.PrefixExactlyWhen states.
- StreamGuarantees.StreamExactlyOnce: asks that every read of the run is answered or refused; a lost read ends the streaming.
