# Document chains and the bytes behind them

A verification project for the document store. It models three layers and proves
what each promises the next:

- **The metadata store** (`store/memory.go`): rows and an access list, changed by atomic calls
  and read by searches, listings and chain reads. `Metadata.dfy` says what each call refuses and
  what state it leaves; `MetadataStore.dfy` is the store itself, a class whose loops meet the
  rows in any order and filter the access list in place, proved against it; `Reads.dfy` and
  `Paging.dfy` say what each read answers; `StoreRuns.dfy` proves what every run keeps;
  `Swaps.dfy` says exactly when a stored row gets other bytes and when an expired one comes back;
  `Effects.dfy` says what the smaller writes mean to later readers.
- **The byte owner** (`documents/service.go` over `s3/s3.go`): `Service.dfy` is the service as a
  class over that store and an object store of copied buffers, proved against `Documents.dfy`.
  Each write puts a sealed object, commits the row, then deletes what was superseded or takes
  its own object back. `Naming.dfy` names the files inside a container, `ByteModel.dfy` states
  the laws of digest, cipher and container format. `Requests.dfy` says who a request acts as, what
  it asks to have stored, and when its creator can read that back.
- **Concurrency, signing and the sweep loop** (`routes/documents.go`, `tasks/retention.go`):
  `Protocol.dfy` splits every request into its atomic steps and interleaves any number of them,
  with failed deletes and requests that die half way; `ProtocolSafety.dfy` and `ProtocolRuns.dfy`
  prove its invariant and what follows over whole runs; `Signing.dfy` proves what merging
  signers keep, and `Races.dfy` what an undisturbed one achieves and what a request that does not
  merge can undo; `Retention.dfy` is the sweep loop, and `RetentionRuns.dfy` the loop among other
  calls.

Run `dafny verify dfyconfig.toml`.

## What is assumed

- The digest (SHA-256, section 6.2 of FIPS 180-4, then base64) is an injective function. Opening
  undoes sealing (AES-GCM, section 7 of NIST SP 800-38D) and unwrapping undoes wrapping. All are
  arbitrary functions with these laws: `ByteModel.Crypto`.
- Container packaging is any set of functions that keep what they are given:
  `ByteModel.Packaging.Lawful`. `ByteModel.PlainIsLawful`, `ByteModel.BoxesAreLawful` and
  `ByteModel.BoxesTakeTwoSignatures` give a cipher and a format that obey all the laws and whose
  operations succeed.
- Row ids and object keys are drawn fresh: never reused, and different from every id and key in
  use (`StoreRuns.Enabled`, `Protocol.FreshKey`).
- A row is inserted with a non-terminal status, an object and a wrapped key, and below nothing or
  below an id that was once a row's (`StoreRuns.Enabled`). That the row it hangs below is a chain
  root is not assumed of runs: `complete` passes the id it was given (routes/documents.go:668).
  Where a read needs chains to be one level deep it says so (`Metadata.RootedParents`), and runs
  that hang new rows below roots keep it so (`StoreRuns.RunsBelowRootsStayRooted`).
- A request that replaces bytes made elsewhere commits against the digest it read with the head;
  rebundles and inserts in flight are put with arbitrary bytes, which only widens what the safety
  results cover.
- A clock reading inside a sweep is not before the instant the pass started at.

## Where the code differs from what is said about it

- `ListChains` pages by last action and then root, not by root; the older cursor that holds only
  a root collects the whole listing exactly when roots and last actions stand in the same order
  (`Reads.BareRootWalkIsExactIff`, `Reads.BareRootCursorDropsAChain`).
- `expired` is not final: an accepted replacement, and nothing else, makes an expired row live
  again (`Swaps.ExpiredRowRevivesIff`, `Swaps.ExpiredRowLivesAgainIff`), with its old date, so the
  next sweep takes it again (`Effects.RevivedRowIsDueAgainIff`).
- A replacement does not look at the legal hold: a held row keeps bytes, but those it had exactly
  until a replacement that meets its own tests (`Swaps.HeldBytesMakeWayIff`,
  `ProtocolRuns.HeldObjectIsTheSameIff`, `Swaps.HeldContainerIsReplaced`).
- An archive refresh promises that a concurrent co-signature wins. It does between the refresh's
  reading the head and its commit (`Signing.SupersedeCommitsIffHeadUnmoved`), but the bytes were
  made before the head is read. Nothing compares the digest read with the bytes the refresh was
  made over, which is exactly what would make it safe (`Signing.SupersedeIsSafeIff`); so a refresh
  of older bytes is accepted and undoes the co-signature (`Races.StaleRefreshUndoesACoSignature`,
  `Races.ASignatureIsDropped`).
- Every first signer is meant to read back the container just created. The creator does exactly
  when let in to the very document completed by subject or identity code (`Requests.ReadBackIff`).
  Neither holds of a signed PDF that is not a chain root (`Requests.ContainerBelowAPdfIsUnreadable`),
  nor of a product completing its own document, whose container is stored under the product's
  credential and without its organisation (`Requests.ContainerOfAProductIsUnreadable`).
- The container of a first signature is said to be owned by the document's owner; it is stored
  under the signer (`Requests.ContainerInput`).
- A product is to reach only rows of the organisation it acts for; the row reads see to that (`Reads.RowReadsStayInTenant`), the
  chain reads and the two searches do not ask (`Reads.ChainReadShowsWhatGetRefuses`,
  `Reads.SearchShowsWhatGetRefuses`). Its principal already names the organisation, as long as
  product names have no colon (`Requests.PrincipalNamesOneOrganisation`,
  `Requests.APrincipalOfTwoOrganisations`), so what the test refuses are rows without their
  owner's organisation (`Requests.OrganisationTestRefusesOnlyStrays`).
- Chains are meant to be one level deep, and the store does not insist on it. Where a chain is
  named after a row of another chain, leaving it may delete that other row
  (`Reads.RemovalIsCounted`, `Requests.LeavingTakesAnotherChainsPdf`), and reads may show it to who
  may not read it (`Reads.ReadsIgnoreInvisibleChainsIff`, `Requests.SearchShowsAnUnseenPdf`).
- Erasing a history record says it drops orphaned access entries; it drops all entries of the
  chain, also when rows of other owners remain, who then can no longer read them
  (`Effects.ErasedHistoryKeepsLiveEntries`, `Effects.ErasingMayLockOutACoSigner`).
- Bundling a source drops the entries of its chain, also when a signed container of that chain
  remains, which then nobody can read (`Effects.AbsorbingKeepsLiveEntriesIff`,
  `Effects.BundlingMayStrandASignedContainer`).
- A bundle compares no digests when it absorbs its sources, so a signed source replaced between
  reading and absorbing takes its newer bytes with it (`Documents.BundleAcceptsOvertakenSource`);
  a bundle can be overtaken exactly when one of its sources is not a plain source
  (`Races.BundleIsOvertakenIff`).
- An object whose deletion failed is said to be mopped up by a sweep; nothing ever removes it
  (`ProtocolRuns.OrphansStay`).

## Model

| member | source | states |
|---|---|---|
| Signing.NoSignatureLost | routes/documents.go:613-735 | Over any run of any number of interleaved requests: from a signing request's success on, while the container's row has bytes they open to a container that keeps the data objects and carries the signatures of that request, as long as whoever superseded this container since had its record |
| Signing.RecordsAreKeptIff | routes/documents.go:1401-1448 | Over any run and for each container by itself: it keeps at every moment what merging requests put in exactly when no accepted replacement of it made elsewhere missed any of it |
| Signing.SupersedeCommitsIffHeadUnmoved | routes/documents.go:1383-1389 | A replacement made elsewhere commits exactly when the row still has the bytes it had when the request read the head |
| Signing.SupersedeIsSafeIff | routes/documents.go:1412-1438 | An accepted replacement made over some bytes keeps all the container had, whatever the format, exactly when those bytes have the digest read with the head |
| Signing.SupersedeOverHeadKeepsRecord | routes/documents.go:1412-1438 | The commit of a replacement made over the bytes of the head it read is a step that keeps what signers recorded |
| Signing.CoSignatureNeverLost | routes/documents.go:713-735 | From the request's side: the signatures in the bytes it read and those it brought are in the container for as long as it is stored, from the moment its commit is accepted |
| Signing.CompleteWrapsTheSource | routes/documents.go:630-676 | A container made from a document holds exactly that document's bytes as read and the first signature, whatever ran in between; while the source row exists its digest still matches |
| Signing.RecordKeptByStepIff | routes/documents.go:1117-1149 | A step of a request keeps a recorded container past its draft, with its data objects and at least its recorded signatures, exactly when it does not supersede it with bytes that miss some |
| Races.UndisturbedCoSignSucceeds | routes/documents.go:713-735 | A co-signer nobody comes between can always take its four steps, and the container then holds the merge |
| Races.UndisturbedCompleteSucceeds | routes/documents.go:630-682 | A first signer nobody comes between can always take its four steps, and the container Ingest stores of the completed bytes hangs below the document |
| Races.UndisturbedSupersedeSucceeds | routes/documents.go:1401-1448 | A replacement nobody comes between is accepted whatever its bytes |
| Races.StaleRefreshUndoesACoSignature | routes/documents.go:1401-1448 | From any state, for any container somebody downloaded and any co-signature accepted since: a refresh of the downloaded bytes that then reads the head is accepted and puts them back |
| Races.ASignatureIsDropped | routes/documents.go:1401-1448 | The same as one run from the empty system, for any format in which the signatures can be made |
| Races.ASecondSignatureComesAndGoes | packaging/packaging.go:76-98 | The same run with a lawful format: the second signature is there after its commit and gone after the refresh |
| Races.PackedIsAbsorbedIff | documents/service.go:265-282 | A bundle that reads its sources step by step among other requests packed what it absorbs exactly when the row's digest did not change in between, and always of a plain source |
| Races.BundleIsOvertakenIff | store/memory.go:234-247 | A bundle that has read its sources can be accepted over other bytes than it packed exactly when one of them is not a plain source |
| Signing.MergeCommitsIffUnmoved | store/memory.go:203-208 | A co-signature's commit is accepted if and only if the row still holds, byte for byte, what it was merged over |
| Signing.LostRaceHasOneWinner | routes/documents.go:684-705 | A refused creation withdraws its object and finds exactly one live container to sign into |
| Signing.BlockedIffOneWinner | store/memory.go:118-127 | A second container is refused if and only if the parent has exactly one live container |
| Signing.SearchesAreOrderFree | store/memory.go:423-464 | In every reachable store the first-found container and the latest signed PDF do not depend on the order rows are met in |
| ProtocolSafety.StepKeepsInv | documents/service.go:127-155 | Every step of every interleaving keeps the invariant: one holder per object, rows matching their objects and digests, each request's knowledge still true |
| ProtocolSafety.BystanderSound | documents/service.go:444-484 | A request in flight is never disturbed by another's step: objects it relies on are unchanged or gone, never rewritten |
| ProtocolSafety.StoreIsRefined | store/memory.go:17-21 | Each protocol step moves the metadata store by one enabled atomic call, or not at all |
| ProtocolRuns.ReachableSystemInv | documents/service.go:456-481 | Every reachable interleaving satisfies the invariant |
| ProtocolRuns.ObjectsAccountedFor | documents/service.go:297-323 | The object keys are exactly the disjoint union of live row references, objects put but not committed, objects pending deletion and objects a failure left; references are unshared, missing exactly on expired or deleted rows, and open to bytes with the row's digest and size |
| ProtocolRuns.NothingLeaksUnlessAFailure | documents/service.go:615-641 | Without a failed delete or a dying request nothing is ever orphaned, and with no request in flight objects and references coincide |
| ProtocolRuns.OrphansStay | documents/service.go:476-481 | An object a failure left behind stays in the object store over any run |
| ProtocolRuns.FetchFailsOnlyWhenGone | documents/service.go:559-577 | Once the row is read, the object is gone or readable; it is never unreadable |
| ProtocolRuns.ContentIsOfTheRowRead | documents/service.go:549-580 | Row and object are read in two steps; under any interleaving the bytes returned are those the row had when read, with its digest |
| ProtocolRuns.RunsRefineStoreRuns | store/memory.go:17-21 | Every interleaving is, for the store, a run of its atomic calls |
| ProtocolRuns.HeldBytesStayReadable | store/memory.go:969-979 | A live held row keeps readable bytes with its digest through any interleaving that does not lift the hold |
| ProtocolRuns.HeldObjectIsTheSameIff | store/memory.go:188-229 | Through any such interleaving it has the very object it had exactly when no replacement meeting its tests was committed on it |
| ProtocolRuns.SourceBytesNeverChange | store/memory.go:199-202 | The bytes of a source row are the same at any two moments of any run |
| StoreRuns.InvKept | store/memory.go:103-991 | Each accepted or refused call keeps all of: issued ids, bytes exactly on non-terminal rows, unshared references, one live artifact per chain, canonical access entries |
| StoreRuns.ReachableInv | store/memory.go:103-991 | All of these hold after any run of calls |
| StoreRuns.RunsBelowRootsStayRooted | store/memory.go:103-184 | Chains stay one level deep over any run that hangs new rows below roots |
| StoreRuns.OneArtifactKept | store/memory.go:118-127 | At most one undeleted container per parent and one undeleted PDF among a root and its children, kept by every call |
| StoreRuns.EntriesStayCanonical | store/memory.go:371-399 | Access entries stay unique per chain, kind and principal, serials stored normalized |
| StoreRuns.RefsConserved | store/memory.go:188-229 | No call loses an object: references afterwards are those before, less those handed back, plus the one brought |
| StoreRuns.RowsContinueOverRuns | store/memory.go:884-900 | Over any run a surviving row keeps its identity; its date never comes sooner, an undated row is never swept, a source keeps its digest, deleted is final, and erased ids never come back |
| Swaps.HeldBytesMakeWayIff | store/memory.go:188-229 | A call gives a live held row another object exactly when it replaces that row and meets the replacement's tests |
| Swaps.HeldBytesStayUnlessSwapped | store/memory.go:188-229 | Over any run a held row nobody replaces keeps its object and digest |
| Swaps.HeldContainerIsReplaced | store/memory.go:188-229 | A run from the empty store in which a held signed container gets other bytes |
| Swaps.ExpiredRowRevivesIff | store/memory.go:199-217 | A call makes an expired or deleted row live exactly when it replaces it and meets the replacement's tests |
| Swaps.ExpiredRowLivesAgainIff | store/memory.go:199-217 | Over any run an expired row lives again at some moment exactly when such a replacement occurs; otherwise it stays expired, deleted or erased |
| StoreRuns.HoldSurvives | store/memory.go:234-247 | Until lifted, no run of calls removes, expires, deletes or empties a live held row |
| Reads.ReadsIgnoreInvisibleChainsIff | store/memory.go:60-78 | Removing every chain the caller has no read entry on changes no answer of any read exactly when no chain it reads is named after a row of an unseen chain that would show |
| Reads.ReadsIgnoreInvisibleChains | store/memory.go:402-493 | Where chains are one level deep there is no such row, and listed chains agree in every field |
| Reads.ListingAgreesWithGetChain | store/memory.go:500-646 | What a large enough first page returns has one row of a chain exactly when the single-chain read by any of its ids finds it, and that row is what the read returns except for the inner files |
| Reads.ChainReadShowsWhatGetRefuses | store/memory.go:500-646 | The head the chain reads show, the row read gives the same caller exactly when it is of the caller's organisation |
| Reads.SearchShowsWhatGetRefuses | store/memory.go:423-464 | What a search shows, the row read gives the same caller exactly when it is of the caller's organisation and not the row of an unseen chain |
| Reads.OutranksIsTotalOrder | store/memory.go:667-674 | Head ranking is a strict total order on rows with different ids |
| Reads.HeadUnique | store/memory.go:667-674 | A set of rows has one head, whatever order it is searched in |
| Reads.ChainCursorIsExact | store/memory.go:504-545 | The listing cursor leaves exactly the chains after it |
| Reads.FirstChainPage | store/memory.go:504-545 | A cursor without a root starts from the first row |
| Reads.BareRootWalkIsExactIff | store/memory.go:504-545 | Paging with the older cursor collects the whole listing in order, for every page size, exactly when roots and last actions stand in the same order |
| Reads.BareRootCursorDropsAChain | store/memory.go:504-545 | A listing for which the older cursor misses a chain |
| Requests.ReadBackIff | documents/service.go:158-170 | Whoever completes a document reads the new container back exactly when let in to that very document by subject or identity code, which in chains one level deep means a chain root |
| Requests.ContainerBelowAPdfIsUnreadable | routes/documents.go:664-674 | A container made of a signed PDF that hangs below a source can be read by nobody |
| Requests.UploadSignComplete | routes/documents.go:1240-1250 | Such a container is reached by three requests from the empty store |
| Requests.ContainerOfAProductIsUnreadable | routes/documents.go:664-674 | Two requests from the empty store: a product completes its own chain root and can read the container neither back nor under its principal, while the chain read shows it |
| Requests.PrincipalNamesOneOrganisation | routes/router.go:111-119 | Unless a product's name has a colon, its principal names one product and one organisation |
| Requests.OrganisationTestRefusesOnlyStrays | store/memory.go:45-55 | For such products the organisation test refuses no row that carries its owner's organisation |
| Requests.SearchShowsAnUnseenPdf | store/memory.go:444-464 | Somebody invited to such a container is shown the PDF by the search and refused it by the row read |
| Requests.LeavingTakesAnotherChainsPdf | store/memory.go:905-960 | When that person leaves, the PDF is deleted although its own chain still has an entry |
| Reads.RemovalIsCounted | store/memory.go:905-960 | After a removal the caller holds nothing, every other entry is intact, and bytes are released if and only if no entry is left; those are the chain's exactly when the row it is named after, if there, is its own chain's |
| Effects.NewChainIsPrivate | store/memory.go:166-181 | A new chain is readable by its owner and by nobody else |
| Effects.GrantGivesExactly | store/memory.go:371-399 | A grant leaves the principal exactly the named rights and every other entry as it was |
| Effects.SerialGrantMatchesAnySpelling | store/store.go:221-224 | In any spelling with the same canonical form, an invited identity code no other entry names reads exactly when the last grant's rights include reading and the organisation matches |
| Effects.FreezeShowsOnTheWholeChain | store/memory.go:832-850 | A freeze set through any row shows on every row of the chain and on no other but the row the chain is named after, should that hang below a row that is gone |
| Effects.ExtensionIsTheLater | store/memory.go:884-900 | Extending leaves the later of both dates, leaves an undated row undated, and changes nothing else |
| Effects.RevivedRowIsDueAgainIff | store/memory.go:203-217 | A replaced expired row is live again, and due at a later sweep exactly when that comes after the row's old date |
| Effects.SweptHistoryKeepsLiveEntries | store/memory.go:765-778 | The history sweep keeps exactly the entries whose chain still has a row |
| Effects.ErasedHistoryKeepsLiveEntries | store/memory.go:786-816 | Early erasure takes only the owner's terminal unheld rows; entries of chains with rows left survive if and only if no row of the chain is someone else's or nobody had access |
| Effects.ErasingMayLockOutACoSigner | store/memory.go:786-816 | A run from the empty store in which early erasure takes an invited co-signer's access to its own remaining row |
| Effects.AbsorbingKeepsLiveEntriesIff | store/memory.go:299-310 | Entries of chains with rows left survive a bundle or rebundle exactly when no absorbed source with an entry has a row below it that stays |
| Effects.BundlingMayStrandASignedContainer | store/memory.go:299-310 | Four calls from the empty store leave a live stored signed container nobody can read |
| Metadata.KeptSplits | store/memory.go:765-778 | Access-list filters work entry by entry and keep the order |
| MetadataStore.CompactInPlace | store/memory.go:765-778 | Compacting over the same backing array leaves exactly the filtered list, in order |
| MetadataStore.Memory.Insert | store/memory.go:103-184 | Inserts the row and the owner's entry, or refuses a second signed artifact and changes nothing |
| MetadataStore.Memory.ReplaceContainerBlob | store/memory.go:188-229 | Swaps bytes under compare-and-set on the digest and hands back the superseded reference |
| MetadataStore.Memory.Bundle | store/memory.go:251-312 | Absorbs all sources into one new row, or refuses at the first fault and changes nothing |
| MetadataStore.Memory.Rebundle | store/memory.go:318-367 | Swaps a draft's bytes and absorbs new sources, or refuses and changes nothing |
| MetadataStore.Memory.Grant | store/memory.go:371-399 | Adds an entry or replaces the rights of the one with the same key |
| MetadataStore.Memory.RemoveAccess | store/memory.go:905-960 | Drops the caller's entries and purges the chain with the last one, for any row order |
| MetadataStore.Memory.SweepRetention | store/memory.go:963-991 | Expires due rows up to the limit, stopping short only when the batch is full, for any row order |
| MetadataStore.Memory.SweepHistory | store/memory.go:747-781 | Erases old terminal unheld rows up to the limit, then the entries of chains with no row |
| MetadataStore.Memory.DeleteHistoryChain | store/memory.go:786-816 | Erases an owner's dead chain, or refuses a live or held one |
| MetadataStore.Memory.SetResultFreeze | store/memory.go:834-850 | Writes the freeze to the root row |
| MetadataStore.Memory.ExtendRetention | store/memory.go:884-900 | Rolls the owner's row forward |
| MetadataStore.Memory.Get | store/memory.go:402-419 | The row for who may read its chain, with the root's freeze |
| MetadataStore.Memory.GetContainerByParent | store/memory.go:423-437 | An undeleted container of the parent, or not found |
| MetadataStore.Memory.GetLatestSignedPdfByChain | store/memory.go:444-464 | The undeleted signed PDF of the chain, or not found |
| MetadataStore.Memory.List | store/memory.go:467-493 | The page of readable rows after the cursor, newest id first |
| MetadataStore.Memory.ListChains | store/memory.go:500-586 | The page of readable chains left by the cursor, by last action then root, each as its head shows it |
| MetadataStore.Memory.GetChain | store/memory.go:594-646 | The chain's head by any of its ids |
| MetadataStore.Memory.ListHistory | store/memory.go:691-742 | The page of the owner's dead chains, newest root first |
| MetadataStore.Memory.ChainRetention | store/memory.go:856-881 | The number of stored rows of the chain and the latest date among them |
| Paging.PagingIsExact | store/memory.go:467-493 | Concatenating pages gives the full sorted listing, no row missed or repeated, for every positive limit |
| Paging.BelowIsSuffix | store/memory.go:704-741 | What a cursor leaves is the rest of the sorted listing after it |
| Paging.DescendingUnique | store/memory.go:485-492 | A set of keys has one descending listing, whatever sort produced it |
| Paging.SortDescending | store/memory.go:485-487 | Sorting orders the rows by descending key and keeps them all |
| Types.NormalizeIdempotent | store/store.go:221-224 | A stored serial is already canonical |
| Naming.UniqueObjectName | documents/service.go:198-213 | The numbering loop ends with a name not in the set, and records it |
| Naming.FirstFree | documents/service.go:198-213 | There always is a first free number: numbered names are distinct and the set is finite |
| Naming.FirstFreeIsFirst | documents/service.go:198-213 | Numbering stops at the first free number |
| Naming.NamesDistinct | documents/service.go:271-282 | The names of a set are pairwise distinct |
| Naming.NameKeptWhenFree | documents/service.go:198-213 | A name is changed if and only if it is empty or taken |
| BlobStore.Blobs.Put | s3/s3.go:130-139 | Stores a fresh copy of the buffer |
| BlobStore.Blobs.Get | s3/s3.go:142-154 | Hands out a fresh copy of the object, or nothing |
| Documents.WriteSettles | documents/service.go:127-155 | Put, commit and delete together leave rows, digests and objects in agreement |
| Documents.ContentMatchesRow | documents/service.go:549-580 | Bytes are returned if and only if the row is readable and not purged, and they have its digest and size |
| Documents.BundleHoldsItsSources | documents/service.go:265-297 | A bundle holds exactly its sources' bytes, in order, under distinct names |
| Documents.BundleConserves | documents/service.go:265-326 | Run alone, a bundle opens to its container; its sources' rows, entries and objects are gone and everything else is unchanged |
| Documents.BundleAcceptsOvertakenSource | store/memory.go:234-247 | A signed source replaced after it was read does not stop the bundle |
| Documents.RebundleReproduces | documents/service.go:333-419 | Rebundling by all existing names in order reproduces the same names and bytes |
| Documents.RenamedIsProper | documents/service.go:355-379 | What a bundle stores has distinct non-empty names, so it can be rebundled by them |
| Service.DocumentService.Content | documents/service.go:549-580 | Row, object, key and plaintext, or the first of not found, gone and unreadable |
| Service.DocumentService.Ingest | documents/service.go:90-171 | The three phases of an insert; refused, rows, entries and objects are as before |
| Service.DocumentService.ReplaceContainer | documents/service.go:444-484 | The three phases of a replacement; refused, nothing changed |
| Service.DocumentService.Bundle | documents/service.go:265-326 | The three phases of a bundle; on any error nothing changed |
| Service.DocumentService.Rebundle | documents/service.go:333-419 | The three phases of a rebundle; on any error nothing changed |
| Service.DocumentService.Delete | documents/service.go:609-628 | Removes access and the objects freed by it, and returns the row as it was |
| Service.DocumentService.Sweep | documents/service.go:632-644 | One batch: expires rows and destroys exactly their objects |
| Service.DocumentService.PerformedSettles | documents/service.go:127-155 | Every call of the service leaves a settled service settled |
| Retention.RetentionTask.RunOnce | tasks/retention.go:74-121 | One pass ends; it expires exactly what was due at the start, frees exactly those objects, leaves nothing due, and erases exactly the history that was old before it began |
| Retention.RetentionTask.Drain | tasks/retention.go:81-94 | The batch loop ends because each full batch shrinks what is due, for any batch size and row order |
| Retention.OwnExpiryIsNotHistory | tasks/retention.go:103-116 | Rows expired by a pass are never erased by its own history stage |
| Retention.ReportedInstantIsTheSweepsClock | store/memory.go:852-881 | After a pass a chain still has bytes if and only if a stored row was held, undated, or the pass came no later than the reported instant |
| RetentionRuns.BecomesDueIff | store/memory.go:969-979 | A call makes a row due at an instant exactly when it stores it with a passed date, gives an expired one new bytes, or lifts its hold |
| RetentionRuns.PassIsBounded | tasks/retention.go:81-94 | Among any other calls, what the batches of one instant take and leave due is at most what was due at the start and became due since |
| RetentionRuns.PassEndsUnlessRefilled | tasks/retention.go:81-94 | Among any other calls a pass has at most as many full batches as those rows can fill |
| RetentionRuns.PassSparesWhatIsNotDue | store/memory.go:963-991 | Among any other calls a row that was held, undated or not yet due when the pass began, and that no call stores with a passed date, revives or releases, is taken by no batch of the pass |
| Retention.PassTakesOnlyWhatIsDue | store/memory.go:963-991 | A stored row loses its bytes in a pass if and only if it is unheld, dated and past its date |

## Left out

- `store/postgres.go`: its stored procedures are not in the repository.
- `SetStatus` (store/memory.go:818): no service method calls it, and it could revive a deleted row.
- Setting a legal hold: the code only reads it, so it is an action of the environment (`SetLegalHold`).
- The container format, XAdES and PAdES, reference checks and upload gating: only the laws in `ByteModel.Packaging` are used.
- Key management and the cipher itself: only the inverse laws are used.
- The S3 backend: object store failures are modelled only as deletes that fail and requests that die; a failed put is a request that ends before it staged anything.
- HTTP, scopes, audit and domain events, GDPR and broker clients, configuration, scanning and health probes.
- The text form of ids, kinds, statuses and cursors: kinds and statuses are datatypes, a cursor is its parsed pair.
- Signing.NoSignatureLost: needs that later replacements of the same container made of bytes produced elsewhere, as archive refreshes are, keep what is recorded; `Signing.RecordsAreKeptIff` shows that this is needed.
- Effects.SerialGrantMatchesAnySpelling: upper-casing and trimming are those of ASCII, not of Unicode.
- Documents.BundleConserves: stated for a bundle that runs alone, because absorbing compares no digests; `Races` says what holds among other requests.
- Retention.RetentionTask.RunOnce: the pass runs alone; `RetentionRuns` says what holds with other calls between its batches. The early return on a store error is not modelled, since the in-memory store has none.
- MetadataStore.Memory.SweepRetention: one clock reading stands for all rows of a call.
- MetadataStore.Memory.Get: rows are values, so the copies the store makes of them on the way out are not modelled.
