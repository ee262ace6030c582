# Perch metrics backend: verified model

A Dafny model of the parts of the metrics backend whose behaviour is hardest to see by reading one function:
charts that are read from rollups instead of raw rows, grouping and percentages that must not lose bytes or
clients, lists that are paged while they change, the two destructive collector commands, resumable artefact
downloads, and the time encodings of the agent-update tables and of the vnstat backfill.

`dafny verify dfyconfig.toml` checks everything.

## How it is laid out

| files | what they model |
|---|---|
| `Options`, `Arith`, `Rationals`, `Totals`, `Groups`, `Sorting`, `Decimal`, `Calendar` | shared vocabulary: `null`, floors, quotients, sums, `GROUP BY` and `Map`, stable sorting, decimal text, the Gregorian calendar |
| `RollupRead`, `RollupCoverage`, `RollupExact`, `RollupRounding`, `ClientsHistory`, `Overview` | the Wi-Fi controller: rollup reads, client counts per bucket, the overview |
| `PointBudget`, `DenseSeries`, `Percentages`, `AsnGroups` | the devices controller: resolutions, dense series, percentages, ASN groups |
| `AlertWalk`, `AlertRuns`, `ReadMarker` | the alerts inbox: one page, a whole walk, the read marker |
| `IdPaging` | the id-only paging of gateways and agent updates |
| `Purge`, `Merge` | the collector commands as step protocols |
| `Downloads`, `ActiveDownloads` | one artefact download, and the set of running ones |
| `UtcColumns`, `VnstatPlan`, `VnstatImport` | UTC columns, and the vnstat backfill |

Handlers that update maps, counters or rows step by step are methods with loops or classes with fields; what
they compute is stated against functions, and the lemmas are about those functions.

## Where the code does not do what it says

Each of these is proved with the exact condition under which the promise does hold.

- The rollup read is called exact (`wifi_controller.ts:1720-1722`). It weighs a slot's mean by all snapshots of
  the slot, including those without a reading, because the maintainer stores `COUNT(*)`. With means of full
  precision it equals the raw mean for all readings exactly when the slots of a bucket that have readings have
  equal shares of null readings (`RollupExactIff`); `RollupNotExact` is a quarter of an hour in which the two
  differ. The table keeps two decimals of each mean, which moves an answer by at most 0.005 (`EvenIsClose`).
- The purge command's table list is called complete (`purge_collector.ts:7-13`). Seven more tables cascade from
  a collector (hosts, observations, UPnP mappings and events, backups of the gateway; agent-update devices and
  rollout devices). Whoever writes meanwhile (the rollup pass
  of `rollup_maintainer.ts:301-319` knows no disabled collectors), the final delete has nothing to cascade exactly when nothing of the
  collector is written to a listed table behind its sweep and nothing of it is in the others
  (`NothingCascadesIff`). When the running poll ends with the wait, however much it writes during it, the first
  half is given, and what is left is whether the collector owns rows in the seven (`ListIsCompleteIff`).
- The vnstat backfill promises not to overlap the native data (`import_vnstat.ts:11-16`). It keeps the promise
  exactly when the cutoff falls into no recorded day, and into no recorded month without recorded days
  (`OverlapFreeIff`). And a run that dies between two inserts is not completed by the next run: after it all
  planned rows are stored exactly when the first run had inserted none or all (`CompleteIffNoneOrAll`).
- The set of running downloads is said to hold a key until its response closes
  (`agent_artefacts_controller.ts:9-13`). If the connection closed before the handler's last part runs, the key
  stays for good and the device is answered 429 from then on (`ActiveIsOpenIff`, `LeakedIsRefused`).
- Alerts bumped after the read marker are said to be unread (`alert_user_state.ts:4`). The marker and the bump
  are whole seconds, so a bump in the marker's own second counts as read (`BumpAfterReadingIsUnread`).
- The text of `window_too_large` and the comment of `resolveResolution` name `1h` as the coarsest grain
  (`devices_controller.ts:184,208`); the ladder goes on to `1d`, and the model follows the ladder.

## Assumptions

- SQL does what it says: `GROUP BY`, `ORDER BY … LIMIT`, `MIN`, `COUNT(DISTINCT …)`, `INSERT IGNORE`, and a
  transaction that fails leaves nothing behind. A `DELETE … LIMIT n` may pick any rows, and may ignore the limit.
- Numbers are exact: integers, rationals as `real`, seconds and milliseconds as integers. The one rounding that is
  modelled is that of the rollup's stored means (`float(8, 2)`).
- SHA-256 tells artefact contents apart. A process zone has a fixed offset.
- The agents' client side is the one the download endpoint is made for: it asks for the rest of what it has and
  sends the ETag it has it from.

## Model

| member | source | states |
|---|---|---|
| `RollupRead.NestedFloor` | app/controllers/wifi_controller.ts:1724-1781 | Cutting a time to its five-minute slot first never moves it to another bucket of a resolution that is a multiple of the slot. |
| `RollupRead.SameWindowIff` | app/controllers/wifi_controller.ts:1720-1781 | The raw and the rollup read see the same snapshots exactly for windows aligned to slots. |
| `RollupRead.BucketRows` | app/services/rollup_maintainer.ts:171-191 | The rollup rows a bucket reads are the rollup of the bucket's own snapshots. |
| `RollupRead.RollupMaxExact` | app/controllers/wifi_controller.ts:1724-1781 | The maximum over a bucket's rollup rows is the maximum over its raw snapshots, for any readings. |
| `RollupRead.BucketTimes` | app/controllers/wifi_controller.ts:1724-1781 | A bucket holds exactly the times from its start up to the next multiple of the resolution. |
| `RollupRead.RawMaxIs` | app/controllers/wifi_controller.ts:1766-1781 | The raw read answers the rate of a snapshot of the bucket that no other exceeds, and null exactly when none has a rate. |
| `RollupRead.RollupMaxIs` | app/controllers/wifi_controller.ts:1731-1757 | So does the read of the rollup, in terms of the raw snapshots. |
| `RollupRead.RawMeanIs` | app/controllers/wifi_controller.ts:1766-1781 | The raw read answers the sum of the bucket's non-null signals over their number, and null exactly without any. |
| `RollupRead.RollupRowIs` | app/services/rollup_maintainer.ts:171-191 | The rollup has a row for every five minutes and access point with a snapshot; its sample count is that of all of them. |
| `RollupCoverage.EvenIsExact` | app/controllers/wifi_controller.ts:1720-1781 | With equal shares of null readings the re-averaged unrounded rollup is the mean of the raw readings. |
| `RollupExact.ExactIsEven` | app/controllers/wifi_controller.ts:1720-1781 | If the two means agree whatever the readings are, the shares of null readings are equal. |
| `RollupExact.RollupExactIff` | app/controllers/wifi_controller.ts:1720-1781 | For every resolution and bucket, before rounding: the rollup read equals the raw read for all readings if and only if coverage is even. |
| `RollupExact.RollupNotExact` | app/controllers/wifi_controller.ts:1720-1781 | Three snapshots for which the rollup says -53.3 dBm and the raw rows -60 dBm. |
| `RollupRounding.RoundedReadClose` | database/migrations/1779000000029_create_wifi_snapshot_5m_rollups.ts:37 | Rounding each stored mean moves a bucket's answer by no more than it moves one mean. |
| `RollupRounding.EvenIsClose` | app/controllers/wifi_controller.ts:1720-1781 | With even coverage the answer read from means of two decimals is within 0.005 of the raw mean. |
| `ClientsHistory.CollectDistinct` | app/controllers/wifi_controller.ts:467-471 | The distinct counts by bucket, the last row of a bucket winning, rows without a time skipped. |
| `ClientsHistory.CollectParts` | app/controllers/wifi_controller.ts:472-510 | Per bucket the sums by band, by access point and in total of exactly its parts, unnamed ones under their fallback names. |
| `ClientsHistory.Clamp` | app/controllers/wifi_controller.ts:511-514 | Every bucket's total becomes the smaller of its sum and its distinct count, if there is one; bands and access points stay. |
| `ClientsHistory.MergeHistory` | app/controllers/wifi_controller.ts:467-523 | The whole merge: one bucket per time that has parts, ascending, each with the clamped contents. |
| `ClientsHistory.LastDistinctCounts` | app/controllers/wifi_controller.ts:467-471 | The distinct count of a bucket is that of its last row. |
| `ClientsHistory.BandIs` | app/controllers/wifi_controller.ts:485-510 | A bucket lists the bands of its parts, each with the sum of their counts, nameless ones as `Unknown`. |
| `ClientsHistory.ApIs` | app/controllers/wifi_controller.ts:485-510 | And the access points, nameless ones as `Unknown AP`. |
| `ClientsHistory.TotalIs` | app/controllers/wifi_controller.ts:485-514 | The total is the sum of the bucket's counts, or its distinct count where that is smaller. |
| `ClientsHistory.PartListed` | app/controllers/wifi_controller.ts:401-412 | The parts query has a row for each bucket, band and access point with a snapshot, and counts its distinct clients. |
| `ClientsHistory.OnlySeenListed` | app/controllers/wifi_controller.ts:401-412 | And it has no other rows. |
| `ClientsHistory.ClientsAre` | app/controllers/wifi_controller.ts:437-449 | The distinct query counts the clients seen between a bucket's start and the next. |
| `ClientsHistory.UnionIsBucket` | app/controllers/wifi_controller.ts:390-449 | The clients of a bucket's parts together are the clients of the bucket. |
| `ClientsHistory.UnionBound` | app/controllers/wifi_controller.ts:416-421 | The parts' counts never sum to less than the distinct clients, and to as many exactly when nobody is in two parts. |
| `ClientsHistory.RawTotalExact` | app/controllers/wifi_controller.ts:416-514 | On the raw path the clamped total of every bucket is its exact number of distinct clients and no part exceeds it; the unclamped sum is right exactly when no client roamed. |
| `ClientsHistory.PartsConserve` | app/controllers/wifi_controller.ts:488-514 | In every bucket the bands and the access points sum to the same parts, and the total is no more. |
| `Overview.SummarizeSignalDistribution` | app/controllers/wifi_controller.ts:1396-1419 | Each tier counts exactly its stations and the seven tiers sum to all of them. |
| `Overview.TiersCover` | app/services/wifi_signal_quality.ts:6-18 | Every station falls into exactly one tier. |
| `Overview.TiersAre` | app/services/wifi_signal_quality.ts:6-18 | The tiers by their limits of -50, -60, -67, -70 and -80 dBm, and the stations without a signal. |
| `Overview.TallySsids` | app/controllers/wifi_controller.ts:1421-1525 | The counters of every name are those of exactly its stations, names in first-seen order. |
| `Overview.SignalSums` | app/controllers/wifi_controller.ts:1421-1525 | The running sum and sample count are the sum and number of exactly the non-null signals. |
| `Overview.BuildSsidSummaries` | app/controllers/wifi_controller.ts:1421-1525 | One entry per name, with its client count and the mean of exactly its non-null signals, by clients and then by name. |
| `Overview.SummaryIs` | app/controllers/wifi_controller.ts:1437-1460 | A name's client count and mean signal, read off the stations; those without a name are `(unknown)`. |
| `Overview.SsidsListed` | app/controllers/wifi_controller.ts:1492-1522 | The list has exactly one entry for each name of a station, a network or a throughput row. |
| `Overview.SsidsOrdered` | app/controllers/wifi_controller.ts:1522-1524 | Most clients first, equal counts by name. |
| `Overview.SsidsConserve` | app/controllers/wifi_controller.ts:157-164 | The client counts of the SSID list sum to the connected stations, whatever other names are listed. |
| `Overview.CountByAp` | app/controllers/wifi_controller.ts:1542-1577 | Each listed access point gets the number of its stations. |
| `Overview.ApCountIs` | app/controllers/wifi_controller.ts:1542-1577 | That number, read off the stations. |
| `Overview.ApCountsConserveIff` | app/controllers/wifi_controller.ts:1542-1577 | The access point counts never exceed the stations, and sum to them exactly when every station's access point is listed. |
| `PointBudget.ClampResolution` | app/controllers/devices_controller.ts:160-174 | The finest ladder step not finer than asked that fits 2000 points, else the coarsest. |
| `PointBudget.ResolveResolution` | app/controllers/devices_controller.ts:187-213 | The window is refused exactly when it is over 50000 days, whatever was requested; else the step is the finest that fits and respects the minimum grain. |
| `PointBudget.FitsIff` | app/controllers/devices_controller.ts:160-179 | A step fits when its buckets over the window are at most 2000, and is refused when they are more than 50000. |
| `PointBudget.StepsFit` | app/controllers/devices_controller.ts:160-179 | The widest window of every step, in milliseconds. |
| `PointBudget.ClampUnique` | app/controllers/devices_controller.ts:160-174 | There is only one such step. |
| `PointBudget.ClampIdempotent` | app/controllers/devices_controller.ts:160-174 | Clamping a clamped step changes nothing. |
| `PointBudget.ClampMonotone` | app/controllers/devices_controller.ts:160-174 | Wider windows and coarser requests never end finer. |
| `PointBudget.ClampFinest` | app/controllers/devices_controller.ts:160-174 | No step that fits is finer than the result. |
| `PointBudget.RfGrainLeast` | app/controllers/wifi_controller.ts:1797-1800 | The RF grain is the least positive multiple of 300 s that keeps the window within 2000 points. |
| `DenseSeries.DenseSlots` | app/services/series_buckets.ts:208-223 | One slot per index of the plan, in order, with its bounds and the seconds it covers. |
| `DenseSeries.PlanWindow` | app/services/series_buckets.ts:132-148 | The window a plan covers, by its two ends: multiples of the grain, now, or the end of the data. |
| `DenseSeries.PlanSlots` | app/services/series_buckets.ts:132-148 | The indexes of a plan are exactly those with a second of that window in them. |
| `DenseSeries.SlotTimes` | app/services/series_buckets.ts:208-223 | A slot runs to the start of the next one and holds exactly the times with its index. |
| `DenseSeries.SlotSeconds` | app/services/series_buckets.ts:208-223 | Its seconds are the number of seconds of the window in it, and at least one. |
| `DenseSeries.SecondsCoverWindow` | app/services/series_buckets.ts:208-223 | The slots' seconds add up to the time the series covers. |
| `DenseSeries.SeriesKeys` | app/controllers/devices_controller.ts:1114-1121 | One aggregate, or every collector seen in the window once and ascending, or a single zero series. |
| `DenseSeries.DenseFill` | app/controllers/devices_controller.ts:1123-1139 | The nested loops build the full grid of slots and keys. |
| `DenseSeries.OneRowPerSlotAndKey` | app/controllers/devices_controller.ts:1123-1139 | Row `keys * i + j` is slot `i` and key `j`, with the stored sums or zeros. |
| `DenseSeries.CellIs` | app/controllers/devices_controller.ts:1100-1139 | The stored sums of a slot and key, column by column, read off the rows. |
| `DenseSeries.SlotHolds` | app/services/series_buckets.ts:572-623 | The cells of a slot sum to what was stored in the slot. |
| `DenseSeries.RowsLieInSlots` | app/services/series_buckets.ts:132-148 | Every row inside the query's time bounds falls into a slot of the plan. |
| `DenseSeries.SeriesConserves` | app/controllers/devices_controller.ts:1100-1139 | The dense series sums, per column, to exactly the stored rows of the query, for any tier, width, window, freshness and key choice. |
| `DenseSeries.TrafficSeries` | app/controllers/devices_controller.ts:1080-1139 | End to end: the full grid of the plan's slots and the keys of the rows; its columns sum to what was stored in the window. |
| `DenseSeries.AggregateProtocols` | app/controllers/devices_controller.ts:1614-1634 | Per protocol the sum of its entries over all buckets, protocols in first-seen order. |
| `DenseSeries.ProtocolTotalsAre` | app/controllers/devices_controller.ts:1614-1634 | These sums, column by column, read off the entries. |
| `Groups.FirstSeenOrder` | app/controllers/devices_controller.ts:1614-1634 | In the order of a `Map` a key comes before another when its first row comes before any of the other's. |
| `DenseSeries.Transposed` | app/controllers/devices_controller.ts:1614-1641 | Protocol totals folded over buckets equal bucket totals folded over protocols, in every column. |
| `Percentages.TenthsClose` | app/controllers/devices_controller.ts:1578-1581 | A percentage lies between 0 and 100 and within 0.05 of the exact share. |
| `Percentages.TenthsMonotone` | app/controllers/devices_controller.ts:1578-1581 | More bytes never show a smaller percentage. |
| `Percentages.SharesSumTo100` | app/controllers/devices_controller.ts:1557-1581 | n rounded shares of a nonzero total sum to within 0.05 n of 100. |
| `Percentages.WithPercentages` | app/controllers/devices_controller.ts:1557-1576 | Every entry keeps its bytes and gets its rounded share of all bytes, zero for no bytes at all. |
| `Percentages.EntriesSumTo100` | app/controllers/devices_controller.ts:1557-1576 | So the shown percentages sum to 100 within that bound. |
| `Percentages.BusiestFirst` | app/controllers/devices_controller.ts:1637-1642 | The breakdown is a permutation, busiest first, ties by name. |
| `Percentages.PercentagesDescend` | app/controllers/devices_controller.ts:1557-1642 | In that order the rounded percentages descend too. |
| `Percentages.Breakdown` | app/controllers/devices_controller.ts:1600-1642 | Shares and sort together: all bytes kept, bytes and percentages descending, summing to 100 within the bound. |
| `Percentages.TopDevicesOf` | app/controllers/devices_controller.ts:741-789 | The first devices with their shares, and one rest entry exactly when some are left, holding the left-out devices' bytes. |
| `Percentages.DeviceTotalsAre` | app/controllers/devices_controller.ts:741-789 | The sums in these entries are those of the bytes received, sent, and both. |
| `Percentages.TopDevicesSumTo100` | app/controllers/devices_controller.ts:741-789 | Shown devices and rest hold every byte and their percentages sum to 100 within the bound. |
| `AsnGroups.KeyInjective` | app/controllers/devices_controller.ts:1679 | The text key is the same only for the same number (or none) and organisation. |
| `AsnGroups.Collect` | app/controllers/devices_controller.ts:1672-1698 | Each key's entry holds exactly the peers of that key, in order, and their sums. |
| `AsnGroups.GroupTopAsns` | app/controllers/devices_controller.ts:1672-1700 | The groups, by total descending. |
| `AsnGroups.GroupsConserve` | app/controllers/devices_controller.ts:1821-1864 | Bytes in, bytes out, totals and peers of the groups sum to those of all rows. |
| `AsnGroups.BusiestFirst` | app/controllers/devices_controller.ts:1699 | The answer is a descending permutation of the groups. |
| `AsnGroups.GroupHolds` | app/controllers/devices_controller.ts:1684-1697 | Each group's number, organisation and sums are those of its peers. |
| `AsnGroups.GroupFields` | app/controllers/devices_controller.ts:1678-1697 | The group of an operator has the prefix of its first peer and the sums of its peers, read off the rows. |
| `AsnGroups.GroupsPartition` | app/controllers/devices_controller.ts:1678-1697 | Every peer is in exactly the group of its number and organisation. |
| `AlertWalk.CursorRoundTrip` | app/controllers/alerts_controller.ts:74-76 | A printed cursor reads back as the same key exactly within 15 digits of milliseconds and 20 of id; otherwise it is malformed. |
| `AlertWalk.TopRowsPage` | app/controllers/alerts_controller.ts:130-134 | A page is strictly descending by time and id, and whatever it leaves out lies below all of it. |
| `AlertWalk.Select` | app/controllers/alerts_controller.ts:130-133 | The rows that meet every pushed condition, in that order, cut at the limit. |
| `AlertWalk.Meaning` | app/controllers/alerts_controller.ts:88-129 | The pushed conditions hold of an alert exactly when the filters want it and it lies under the cursor; the two definitions of visible agree. |
| `AlertWalk.WantedIff` | app/controllers/alerts_controller.ts:53-120 | What the filters let through, state by state and severity by severity. |
| `AlertWalk.Build` | app/controllers/alerts_controller.ts:88-129 | Which request is refused with which error, in the order of the checks. |
| `AlertWalk.Slice` | app/controllers/alerts_controller.ts:134-142 | One row more is asked for than shown; the next cursor is the last shown row's, exactly when something is left. |
| `AlertWalk.Index` | app/controllers/alerts_controller.ts:82-143 | The page a request gets is that of the wanted alerts under its cursor, or its first error. |
| `AlertWalk.PageListsWanted` | app/controllers/alerts_controller.ts:121-134 | A page has only wanted alerts under the cursor, latest bump and then highest id first, and leaves one out only when it is full of later ones. |
| `AlertWalk.NextIs` | app/controllers/alerts_controller.ts:134-142 | A next page is named exactly when a candidate is missing, by the time and id of the last row. |
| `AlertWalk.CursorForm` | app/controllers/alerts_controller.ts:121-126 | Which texts are cursors, and of which second and id. |
| `AlertRuns.ListedKeysDescend` | app/controllers/alerts_controller.ts:121-142 | Over a whole walk, whatever happens to the table, the listed keys strictly descend. |
| `AlertRuns.NoAlertTwice` | app/controllers/alerts_controller.ts:121-142 | If alerts are only bumped up and numbers are not reused, no alert is listed twice. |
| `AlertRuns.ListedOnceIffNotLifted` | app/controllers/alerts_controller.ts:121-142 | An alert that matches throughout is listed exactly once by a finished walk, unless a bump lifted it over the cursor while it waited; then it is not listed. |
| `AlertRuns.UnchangedIsListedOnce` | app/controllers/alerts_controller.ts:121-142 | An alert with an unchanged key is listed exactly once, whatever other alerts do. |
| `AlertRuns.WalkIsBounded` | app/controllers/alerts_controller.ts:121-142 | Every request that does not end the walk uses up `limit` of the rows there were, if nothing is put under the cursor. |
| `AlertRuns.BumpedAlertIsMissed` | app/controllers/alerts_controller.ts:121-142 | A walk in which an alert matches throughout, is bumped once, and is never listed. |
| `AlertRuns.CursorIsPassedOn` | app/controllers/alerts_controller.ts:121-129 | The text a client sends back is read as the cursor it was given, and the request sees the same candidates. |
| `AlertRuns.RequestPage` | app/controllers/alerts_controller.ts:82-143 | A request through the endpoint, cursor text and all, is the step the walk results are about. |
| `ReadMarker.UserState.MarkRead` | app/controllers/alerts_controller.ts:222-242 | The marker becomes the later of itself and the asked second, never a future one; a malformed time changes nothing. |
| `ReadMarker.AskedIs` | app/controllers/alerts_controller.ts:222-234 | The asked second is that of the given time, or of the request when that is earlier or no time is given. |
| `ReadMarker.UnreadCount` | app/controllers/alerts_controller.ts:66-72 | The number of visible alerts bumped after the marker, as the alert view tells unread. |
| `ReadMarker.UnreadAre` | app/controllers/alerts_controller.ts:57-72 | Which alerts are counted, state by state. |
| `ReadMarker.MarkerIsLatest` | app/controllers/alerts_controller.ts:222-242 | After any requests in any order the marker is the latest second asked for. |
| `ReadMarker.ReadingLowersUnread` | app/controllers/alerts_controller.ts:66-72 | Reading never raises the unread count. |
| `ReadMarker.BumpAfterReadingIsUnread` | app/controllers/alerts_controller.ts:222-242 | An alert bumped after reading shows as unread exactly when its bump falls into a later second. |
| `ReadMarker.SameSecondCountsAsRead` | app/models/alert_user_state.ts:4-15 | A bump 0.8 s after reading that never shows as unread. |
| `IdPaging.PageWithLookahead` | app/controllers/agent_updates_controller.ts:70-90 | A page of the jobs and events lists, and the next `before` exactly when more is left. |
| `IdPaging.PageWithoutLookahead` | app/controllers/gateways_controller.ts:522-541 | A page of the applies, revisions and events lists; a full page always names a next one. |
| `IdPaging.SectionPage` | app/controllers/gateways_controller.ts:230-274 | A page of a section's history: filtered exactly after paging, its next `before` unfiltered. |
| `IdPaging.LeftOver` | app/controllers/gateways_controller.ts:583-600 | Behind a row of the first answer lies the same rest, however many new rows have come on top. |
| `IdPaging.WalkWithLookahead` | app/controllers/agent_updates_controller.ts:70-119 | A walk over a growing table lists every row there was, once, newest first, in ⌈n/limit⌉ requests and at least one. |
| `IdPaging.WalkWithoutLookahead` | app/controllers/gateways_controller.ts:699-720 | The same rows in the same order, in ⌊n/limit⌋ + 1 requests. |
| `IdPaging.WalkSection` | app/controllers/gateways_controller.ts:230-274 | The section history lists exactly the revisions whose diff names the section, even across pages that come out empty. |
| `IdPaging.WalkChanging` | app/controllers/gateways_controller.ts:522-541 | With rows coming and going in any way a walk of either scheme still ends, lists no row twice, only rows that were there, and every row that stayed. |
| `Purge.Database.Statement` | commands/purge_collector.ts:204-212 | One delete takes at most a batch of the collector's rows and nobody else's; one that fails takes nothing. |
| `Purge.Database.DeleteBatch` | commands/purge_collector.ts:204-221 | A batch is retried on lock contention up to three times and ends as the answers say; a short batch leaves the table clear. |
| `Purge.BatchDeletesIff` | commands/purge_collector.ts:204-221 | With three answers to come a batch deletes exactly when the first that is not contention is a success. |
| `Purge.Database.PurgeTable` | commands/purge_collector.ts:178-197 | A table's sweep ends with no row of the collector left and counts what it removed; undisturbed, it takes at most one statement per full batch and one more, with the limit honoured or not. |
| `Purge.Database.Sweep` | commands/purge_collector.ts:115-120 | After the sweep each listed table holds of the collector only what was written after its own sweep; the total is what was removed; undisturbed, it ends in the statements its tables are due. |
| `Purge.Database.Quiesce` | commands/purge_collector.ts:164-176 | The collector is disabled, the wait is the asked one or the poll interval, at most 60 s, and only what others write meanwhile changes the tables. |
| `Purge.Database.CountChildren` | commands/purge_collector.ts:184-188 | The dry run counts the collector's rows in the child tables. |
| `Purge.Database.Run` | commands/purge_collector.ts:88-156 | All outcomes: other collectors' rows are kept in every one of them; a finished run leaves no row and reports exactly the rows removed; a failed or crashed one leaves the collector in place, disabled; a dry run changes nothing. If the running poll ends with the wait, the run takes exactly the rows there were after it, leaves the cascade none in the listed tables, and finishes unless a statement fails or it is killed. By default that wait is the poll interval, if it is no more than 60 s. |
| `Purge.KeptIff` | commands/purge_collector.ts:88-156 | What "kept" means, row by row: of the others exactly the rows they had and those written for them. |
| `Purge.PurgedIff` | commands/purge_collector.ts:88-156 | What "purged" means, row by row: the same, and no row of the collector. |
| `Purge.UnlistedIff` | commands/purge_collector.ts:88-156 | What a run whose poll ended with the wait leaves to the cascade, row by row. |
| `Purge.TotalCountsRows` | commands/purge_collector.ts:184-197 | Its total, and that of a dry run, is the number of the collector's rows in the listed tables. |
| `Purge.GraceMakesQuiet` | commands/purge_collector.ts:54-60 | A poll that ends within the wait writes nothing behind it, however much it writes during it. |
| `Purge.NothingCascadesIff` | commands/purge_collector.ts:7-13 | For any writers: the final delete has nothing to cascade exactly when nothing is written to a listed table behind its sweep and the collector has no rows in the tables outside the list. |
| `Purge.ListIsCompleteIff` | commands/purge_collector.ts:7-13 | After a wait that outlasts the poll, exactly when the collector owns no row outside the listed tables. |
| `Purge.UnlistedTables` | commands/purge_collector.ts:14-30 | The tables outside the list are these seven. |
| `Purge.GatewayHostCascades` | database/migrations/1779000000046_create_gateway_observation_tables.ts:22-34 | An undisturbed run of seventeen steps that finishes and leaves one host row of the gateway inventory to the cascade. |
| `Purge.KeptInTurn` | commands/purge_collector.ts:39-44 | Interrupted runs add up like one longer run: no other collector's row is missing. |
| `Purge.RerunAfterCrash` | commands/purge_collector.ts:39-44 | A run that stopped anywhere followed by a full one reaches the state of one uninterrupted run. |
| `Merge.Command.Wait` | commands/merge_collectors.ts:154-175 | A first signal is only counted; the second ends the process. |
| `Merge.Command.Quiesce` | commands/merge_collectors.ts:249-263 | Both flags off and nothing else changed; it succeeds exactly when none of its awaits fails, and has then waited the grace period. |
| `Merge.GraceIs` | commands/merge_collectors.ts:258-262 | The wait is the asked one, or the longest of 15 s and the two poll intervals, and at most 60 s. |
| `Merge.Command.ExecuteWithRetries` | commands/merge_collectors.ts:265-275 | The transaction takes effect at most once, in at most three attempts, as the answers decide; otherwise nothing changes. |
| `Merge.AttemptsSucceedIff` | commands/merge_collectors.ts:265-276 | The attempts succeed exactly when the body raises nothing and the first of three answers that is no contention is no fault. |
| `Merge.ExecuteMerges` | app/services/collector_merge.ts:1250-1358 | A committed merge leaves one row of the two, under the successor's name and planned flag and the earlier creation time; history folded once. |
| `Merge.Command.RestoreFlags` | commands/merge_collectors.ts:278-286 | Both flags as planned, nothing else changed. |
| `Merge.Command.Run` | commands/merge_collectors.ts:88-147 | All outcomes: merged exactly once, or history untouched and flags as planned; refusals and dry runs change nothing; handlers are removed on every path but the second signal's. |
| `Merge.RestoredIsUnchanged` | commands/merge_collectors.ts:278-286 | With flags still as planned, a failed merge leaves the collectors exactly as they were. |
| `Merge.FlagsForgotten` | commands/merge_collectors.ts:278-286 | Restoring does not depend on how far the quiesce had come. |
| `Merge.FirstSignalIsHeld` | commands/merge_collectors.ts:148-153 | Whether a merge succeeds does not depend on signals. |
| `Merge.SecondSignalIff` | commands/merge_collectors.ts:154-175 | The process is told to exit exactly when two signals have come. |
| `Downloads.Download` | app/controllers/agent_artefacts_controller.ts:73-113 | 200 with the whole file, 206 with exactly the bytes the range names and matching headers inside the file, or 416 when it names none; a range meant for another version is ignored. |
| `Downloads.EffectiveIff` | app/controllers/agent_artefacts_controller.ts:77-82 | Which requests are answered without a range. |
| `Downloads.EtagsDiffer` | app/controllers/agent_artefacts_controller.ts:73 | ETags differ exactly as the hashes do. |
| `Downloads.HeaderParses` | app/controllers/agent_artefacts_controller.ts:80-83 | Every header `bytes=a-b` or `bytes=a-`, with space around it, is read as those two numbers. |
| `Downloads.OnlyRangesParse` | app/controllers/agent_artefacts_controller.ts:80-83 | No other header is read as a range. |
| `Downloads.BoundedDownload` | app/controllers/agent_artefacts_controller.ts:79-105 | `bytes=k-m` is answered 206 exactly when k lies in the file, with the bytes from k to m or to the end. |
| `Downloads.ResumeHeaderParses` | app/controllers/agent_artefacts_controller.ts:79-83 | `bytes=k-` is read as from k to the end, for every k. |
| `Downloads.InvertedRangeIsRefused` | app/controllers/agent_artefacts_controller.ts:84-90 | A range that ends before it begins is answered 416; section 14.2 of RFC 9110 lets a server ignore or reject it. |
| `Downloads.Request` | app/controllers/agent_artefacts_controller.ts:73-113 | A resuming request continues the version it has, and starts over with 200 when the file has changed. |
| `Downloads.Resume` | app/controllers/agent_artefacts_controller.ts:73-113 | After any interruptions and replacements the client holds a prefix of one single version, and when complete exactly the version it was answered with; a request that is not cut short completes it. |
| `Downloads.MixedWithoutIfRange` | app/controllers/agent_artefacts_controller.ts:77-83 | Without `If-Range` the same client assembles bytes of two versions. |
| `ActiveDownloads.Server.Download` | app/controllers/agent_artefacts_controller.ts:64-110 | The part after the last await: busy for a key in the set, 416 without touching the set, else the key is added and the stream starts. |
| `ActiveDownloads.Server.OnClose` | app/controllers/agent_artefacts_controller.ts:107-110 | A stream's close takes its key out; a close before the stream started takes nothing out. |
| `ActiveDownloads.AlwaysAccounted` | app/controllers/agent_artefacts_controller.ts:9-14 | In every interleaving the set is the keys of the open streams and the leaked keys, and no device has two open streams. |
| `ActiveDownloads.LeaksIff` | app/controllers/agent_artefacts_controller.ts:107-110 | A key leaks exactly when a download starts for a connection that has already closed. |
| `ActiveDownloads.ActiveIsOpenIff` | app/controllers/agent_artefacts_controller.ts:9-14 | The set is exactly the keys of the open streams if and only if that never happened. |
| `ActiveDownloads.AnswerIs` | app/controllers/agent_artefacts_controller.ts:64-90 | In every interleaving a device is answered busy exactly while it has an open stream or a leaked key. |
| `ActiveDownloads.StreamAndClose` | app/controllers/agent_artefacts_controller.ts:107-110 | A stream adds its device's key, and its close takes that key and nothing else out. |
| `ActiveDownloads.LeakedIsRefused` | app/controllers/agent_artefacts_controller.ts:64-71 | A leaked device is answered busy in every continuation. |
| `ActiveDownloads.HangUpLeaks` | app/controllers/agent_artefacts_controller.ts:64-110 | The three steps that leak. |
| `Calendar.DaysOrdered` | app/models/agent_update_columns.ts:20-35 | Day numbers keep the order of calendar dates. |
| `Calendar.DayRoundTrip` | app/models/agent_update_columns.ts:20-35 | Day number to date and back. |
| `Calendar.DateRoundTrip` | app/models/agent_update_columns.ts:20-35 | Date to day number and back, so every day has one date. |
| `Calendar.WallRoundTrip` | app/models/agent_update_columns.ts:20-35 | Seconds to wall time and back. |
| `Calendar.SecondsRoundTrip` | app/models/agent_update_columns.ts:20-35 | Wall time to seconds and back. |
| `Calendar.Epoch` | app/models/agent_update_columns.ts:20-35 | Day 0 is the first of January 1970. |
| `Calendar.NextDay` | app/models/agent_update_columns.ts:20-35 | Every day is followed by the next date, month lengths and leap years written out. |
| `Calendar.NextSecond` | app/models/agent_update_columns.ts:20-35 | Every second the clock ticks, and after 23:59:59 comes the next date. |
| `UtcColumns.TextRoundTrip` | app/models/agent_update_columns.ts:14-45 | A written time reads back from text as the original cut to the second, in every zone, exactly for years of four digits; otherwise as none. |
| `UtcColumns.WrittenShows` | app/models/agent_update_columns.ts:38-41 | The text shows the UTC date and time of the second, each field in its place. |
| `UtcColumns.EpochText` | app/models/agent_update_columns.ts:38-41 | The first second is written `1970-01-01 00:00:00`. |
| `UtcColumns.OnlyWrittenTextReads` | app/models/agent_update_columns.ts:29-32 | Nothing but such a text, with a fraction or without, is read as a time. |
| `UtcColumns.MillisCut` | app/models/agent_update_columns.ts:29-32 | A fraction is cut to milliseconds. |
| `UtcColumns.DateRoundTripInZone` | app/models/agent_update_columns.ts:14-35 | The Date a driver builds in any fixed-offset zone reads back as that same instant. |
| `UtcColumns.LocalFieldsRead` | app/models/agent_update_columns.ts:14-28 | Any Date is read as its instant and the zone's offset, to the second. |
| `UtcColumns.DirectReadIsOff` | app/models/agent_update_columns.ts:6-12 | Taking such a Date as it stands is right only in a zone without offset. |
| `UtcColumns.SecondRoundIsStable` | app/models/agent_update_columns.ts:42-55 | Loading and saving again does not change the text. |
| `UtcColumns.NothingReadsAsNothing` | app/models/agent_update_columns.ts:14-45 | No value, an invalid Date and the zero date read as none. |
| `VnstatPlan.SelectRows` | import_vnstat.ts:178-238 | The loops select exactly the specified rows. |
| `VnstatPlan.PlanHolds` | import_vnstat.ts:178-240 | In the plan are exactly the days that start before the cutoff and such months in which no recorded day falls. |
| `VnstatPlan.PlanIs` | import_vnstat.ts:178-240 | The same in terms of the records: which day and month gives which row, with received bytes in and sent bytes out. |
| `VnstatPlan.SameMonthIff` | import_vnstat.ts:183-188 | The month key is the same exactly for records of one month. |
| `VnstatPlan.TextShows` | import_vnstat.ts:128-137 | A bucket start shows its date at midnight. |
| `VnstatPlan.EndIs` | import_vnstat.ts:200-238 | A row covers its day, or its month to the first of the next. |
| `VnstatPlan.TextOrderIsTimeOrder` | import_vnstat.ts:128-137 | Bucket starts sort as text exactly as they follow in time. |
| `VnstatPlan.SortsInTime` | import_vnstat.ts:240 | Sorting by text gives a permutation in time order. |
| `VnstatPlan.PlanIsDisjoint` | import_vnstat.ts:178-240 | The planned rows cover pairwise disjoint stretches of time, strictly ascending, all starting before the cutoff. |
| `VnstatPlan.OnlyLastStraddles` | import_vnstat.ts:178-240 | Every planned row but the last ends before the cutoff. |
| `VnstatPlan.OverlapFreeIff` | import_vnstat.ts:11-16 | No planned row reaches past the cutoff exactly when the cutoff falls into no recorded day, and into no recorded month without recorded days. |
| `VnstatImport.FindEarliest` | import_vnstat.ts:147-162 | The cutoff: the earliest stored bucket of any device, or now. |
| `VnstatImport.Database.Backfill` | import_vnstat.ts:147-316 | A run inserts the plan for its cutoff in order, up to where it dies, and counts the inserts. |
| `VnstatImport.NothingIsIgnored` | import_vnstat.ts:289-316 | No planned row meets a stored one, so `INSERT IGNORE` never ignores one. |
| `VnstatImport.BackfillStores` | import_vnstat.ts:289-316 | A finished run stores every planned row under its device and start, with its bytes. |
| `VnstatImport.InsertsKeep` | import_vnstat.ts:289-316 | What was stored before stays as it was. |
| `VnstatImport.NextCutoff` | import_vnstat.ts:147-162 | After at least one insert the next cutoff is the start of the first planned row. |
| `VnstatImport.SecondRunAddsNothing` | import_vnstat.ts:147-316 | A second run on the same data plans nothing, after a complete run or one that died after an insert. |
| `VnstatImport.HigherCutoffStoresAll` | import_vnstat.ts:178-316 | A finished run for a later cutoff stores every row an earlier cutoff plans. |
| `VnstatImport.CompleteIffNoneOrAll` | import_vnstat.ts:288-316 | After a run that died behind n inserts and a finished re-run, all rows of the first plan are stored exactly when n was none or all of them. |
| `VnstatImport.DayOfTheCutoffOverlaps` | import_vnstat.ts:221-238 | Native data that begins at noon is overlapped by twelve hours. |

## Left out

- Everything the services behind the controllers decide: the alert engine, apply lifecycle, rollouts, QoS, portal. The merge's effect on the history tables is a parameter; that it is one transaction is assumed.
- Sleeps between retries, and in which order rows of one `whereIn` come: only what they make possible (writes, signals, failures) is modelled.
- Killing the merge outright, two commands at once, and a commit whose answer is lost: the code makes no claim about them.
- The request counts of id-only walks over tables that also lose rows: `IdPaging.WalkChanging` says what they list.
- Splitting, trimming and blank removal of the alert list's comma parameters, and the subject syntax: the query is taken as parsed.
- Alert ids beyond 2^53, where JavaScript numbers lose digits, and ids written with leading zeros.
- Forms of SQL time text a DATETIME never has (no time part, a zone suffix): `UtcColumns.FromSql` reads the full form with an optional fraction.
- Zones with daylight saving: a fixed offset is assumed where a zone matters.
- Tokens, the on-demand fetch of artefacts, and the other download headers: a request counts as admitted and the file as stored.
- An empty artefact: `Downloads.Download` answers it with a stream fault, as opening the file from 0 to -1 fails.
- The client history's rolled-up path, whose totals another job has computed: `ClientsHistory.RawTotalExact` is about the raw path, the merge about both.
- The RF and AP-health queries: they read the same two expressions as the client history.
- Averages, peaks and rates of the traffic summary, RF fields, band and access point name sets: they follow from the modelled sums.
- The device identity row the backfill adds, and its console output.
