# Colonel documents and their serializer, in Dafny

Colonel stores versioned structured documents in git.
- Every document has a bare repository of its own.
- Every publishing state (`master`, `published`, …) is a branch `refs/heads/<state>`.
- Every history hangs off a parentless root revision tagged `refs/tags/root`.
- A save is a one-parent commit on top of its state.
- A promotion is a two-parent merge commit on the destination state. Its first parent is the destination's previous tip (or the root). Its second parent is the tip of the source state.

`Colonel::Serializer` dumps documents to a line-oriented text stream and loads them back. Each document in the stream has:
- a `document: <name>` header;
- an `objects:` section with one record per git object (oid, type, Base64 data, length);
- a `references:` section with the symbolic `HEAD` and one record per reference.

This project models both classes:

- `wrappers.dfy`, `bytes.dfy`, `base64.dfy` and `objects.dfy` hold the vocabulary.
  - `Option`/`Result` values.
  - A byte codec for the git objects a revision writes: content blob, one-entry tree, commit.
  - Strict Base64 (RFC 4648, section 4, with padding).
  - Object identities. An oid is the pair (kind, payload), so identity is injective, as the model needs SHA-1 to be.
- `store.dfy` is the repository.
  - A `Snapshot` is an object database (a set of oids) plus a reference table. The table is a sequence whose first entry is the symbolic `HEAD`; the rest is what `references.each` enumerates.
  - The `Repository` class holds a snapshot's two parts as fields. Its `write`, `references.create` and `references.update` methods change them in place.
- `lineage.dfy` reads histories.
  - It covers commit lookup, `parents_hash`, the `history` walk and the `has_ancestor?` walk in both directions.
  - It also covers `has_been_promoted?`.
- `lineage_facts.dfy` proves what those walks compute. They terminate on a closed store, and growing the store changes none of them. `has_been_promoted?` answers whether the revision lies on a diagonal from the state's first-parent line.
- `document.dfy` holds `init_repository`, `save!`/`save_in!`, `promote!`, `history` and `has_been_promoted?`.
  - Each is a function on snapshots that states the operation: `InitSpec`, `SaveSpec`, `PromoteSpec`, `HistorySpec` and `PromotedOf`.
  - Each also appears as a method of the `Document` class, proved to carry that function out.
  - The code's literal behaviour gets separate definitions where it departs from the documentation (see Findings).
- `document_facts.dfy` proves the document's promises about these functions:
  - where each new commit goes and what it holds;
  - the histories it creates and leaves untouched;
  - that promotions stay recorded.
- `serializer.dfy` models `generate` and `load`.
  - `generate` is a specification function (`DumpAll`) and the imperative `Generate`, which walks every reference down its first parents.
  - `load` is a line-by-line reader (`StepLine`, `Run`, `LoadSpec`) and the imperative `Load`, which fills fresh repositories.
- `serializer_facts.dfy` proves the round trip (`LoadSpec(DumpAll(ds)) == Ok(RestoreAll(ds))`). It also proves:
  - the integrity checks on object records;
  - that an error stops the load;
  - the section order the reader enforces.
- `dump_history.dfy` proves that a dump and reload keeps every state's history and content. This needs one invariant, `Covered`: the parents of every commit the dump walks are themselves walked. Initialisation, saves and promotions all preserve `Covered`.

A document's content is its serialized JSON, modelled as the bytes of the content file.

## Model

| member | source | states |
|---|---|---|
| Base64.DecodeEncode | lib/colonel/serializer.rb:139 | Strict Base64 decoding of a strict encoding gives back exactly the encoded bytes, for every byte string. |
| Base64.EncodeDecode | lib/colonel/serializer.rb:139 | Every text strict decoding accepts is the canonical encoding of what it decodes to. So a record's `data` field has exactly one accepted spelling. |
| Base64.CharOf | lib/colonel/serializer.rb:114 | An encoded sextet is never the padding character. |
| Base64.DecodeLast | lib/colonel/serializer.rb:139 | A final quantum decodes to one to three bytes. |
| Objects.ParseEncodeTree | lib/colonel/serializer.rb:103-106 | Reading a tree object gives back the entries it was written with, so `tree.first[:oid]` is the content blob written. |
| Objects.ParseEncodeCommit | lib/colonel/document.rb:134-149 | Reading a commit object gives back its tree, parents in order, author, message and time. |
| Objects.DecodeOid | lib/colonel/document.rb:149 | A decoded parent oid is strictly smaller than the commit that names it, so first- and last-parent walks end. |
| Store.Find | lib/colonel/serializer.rb:123 | A reference lookup fails exactly when no reference has the name, and otherwise gives the target of a reference with that name. |
| Store.FindAssign | lib/colonel/serializer.rb:123-127 | After creating or updating a reference, looking up that name gives the new target. Looking up any other name gives what it gave before. |
| Store.AssignShape | lib/colonel/serializer.rb:123-127 | A new name is appended at the end of the table. An existing one is overwritten where it stands, so the length and the position of `HEAD` are kept. |
| Store.AssignAppends | lib/colonel/serializer.rb:126 | Creating an absent reference appends exactly it. |
| Store.AssignLength | lib/colonel/serializer.rb:123-127 | Assignment grows the table by one exactly when the name was absent. |
| Store.AssignElements | lib/colonel/serializer.rb:123-127 | Every entry after assignment is either an old entry or the assigned one. |
| Store.FindUnique | lib/colonel/serializer.rb:123 | With unique names, each entry is what a lookup of its name returns. |
| Store.AssignUnique | lib/colonel/serializer.rb:123-127 | Creating or updating references keeps reference names unique. |
| Store.Repository.constructor | lib/colonel/document.rb:207-213 | A newly initialised bare repository holds no objects and only `HEAD`, pointing at `refs/heads/master`. |
| Store.Repository.Write | lib/colonel/serializer.rb:143 | `repo.write` adds exactly the object, leaves the references alone and returns the oid of that kind and data. |
| Store.Repository.Create | lib/colonel/serializer.rb:126 | `references.create` appends the reference when its name is free. Otherwise it fails with `RefExists` and changes nothing. |
| Store.Repository.Update | lib/colonel/serializer.rb:124 | `references.update` retargets an existing reference. On a missing name it fails with `RefMissing` and changes nothing. |
| Store.Repository.Move | lib/colonel/document.rb:80 | Writing a revision to a reference creates or retargets it and leaves the objects alone. |
| Lineage.LookupCommit | lib/colonel/document.rb:134 | A lookup succeeds exactly for a commit in the store and gives its parsed commit. Its parents are smaller than it. |
| Lineage.FirstBadParent | lib/colonel/document.rb:149 | No error is reported exactly when every parent is a commit in the store. |
| Lineage.LoadParents | lib/colonel/document.rb:149 | `commit.parents` succeeds exactly when every parent is in the store, and gives them in order. |
| Lineage.LookupTree | lib/colonel/document.rb:110 | A tree lookup succeeds exactly for a parsable tree object in the store and gives its entries. |
| Lineage.ReadContent | lib/colonel/document.rb:110-111 | The content of a revision can only be read from a commit in the store. |
| Lineage.ParentsHash | lib/colonel/document.rb:280-292 | It has `source` exactly when there are two parents, and then it is the second. It has `previous` exactly when the first parent is not the root (or there is none), and then it is the first. |
| Lineage.Step | lib/colonel/document.rb:266 | Stepping `first` or `last` stays among the commit's parents. |
| LineageFacts.TrailUnfold | lib/colonel/document.rb:260-270 | A walk's trail starts at the start commit. It stops there exactly when `:first` finds no parent or `:last` finds fewer than two; otherwise it continues from the chosen parent. |
| LineageFacts.WalkUnfold | lib/colonel/document.rb:260-270 | `has_ancestor?` answers true when the current commit passes, false when it fails at a stopping commit, and otherwise the answer from the next one. |
| LineageFacts.TrailSteps | lib/colonel/document.rb:260-270 | A trail is empty exactly when there is no start, begins at the start, and each next commit is its predecessor's chosen parent, stepped to only from a commit where the walk does not stop. |
| LineageFacts.TrailCommits | lib/colonel/document.rb:260-270 | Every commit on a trail is a well-formed commit in the store. |
| LineageFacts.TrailEnds | lib/colonel/document.rb:260-270 | The last commit of a trail is one where the walk stops: no parent, or fewer than two for a walk along last parents. |
| LineageFacts.WalkSearchesTrail | lib/colonel/document.rb:260-270 | `has_ancestor?` answers whether any commit on the trail passes the test. |
| LineageFacts.ClosedTrail | lib/colonel/document.rb:260-270 | In a store where every parent of a commit is a commit, every walk ends without error. |
| LineageFacts.PromotedIff | lib/colonel/document.rb:191-204 | `has_been_promoted?` is true exactly when some commit on the state's first-parent line has the revision on the last-parent line of its last parent. |
| LineageFacts.HistoryGrows | lib/colonel/document.rb:123-153 | Adding objects to the store does not change a history that could already be read. |
| LineageFacts.WalkGrows | lib/colonel/document.rb:260-270 | Adding objects does not change a walk's answer. |
| LineageFacts.PromotedGrows | lib/colonel/document.rb:191-204 | Adding objects does not change whether a revision has been promoted. |
| LineageFacts.ClosedHistory | lib/colonel/document.rb:136-150 | In a closed store the history from any commit can be read. |
| LineageFacts.ClosedSourceReaches | lib/colonel/document.rb:199-203 | The inner search is membership of the revision in the last-parent line of a commit's last parent. |
| LineageFacts.PromotedExtends | lib/colonel/document.rb:199 | A promotion found from a commit's first parent is still found from the commit. |
| LineageFacts.ReadContentGrows | lib/colonel/document.rb:110-111 | Adding objects does not change the content read from a revision. |
| LineageFacts.HistoryUnfold | lib/colonel/document.rb:136-150 | A history is the start commit's entry, followed by nothing when it is a first commit or parentless, else by its first parent's history. |
| LineageFacts.PromotedAtTip | lib/colonel/document.rb:191-204 | A state whose tip has the revision as its last parent reports it promoted. |
| Documents.Document.constructor | lib/colonel/document.rb:25-31 | A new document has its id and content, no revision, and an empty repository of its own. |
| Documents.Document.WriteObjects | lib/colonel/document.rb:80 | Writing a revision adds exactly its blob, tree and commit, and returns the commit's oid. |
| Documents.Document.CommitRevision | lib/colonel/document.rb:80 | Writing a revision and moving its reference leaves the repository as `WriteSpec` describes. |
| Documents.Document.InitRepository | lib/colonel/document.rb:88-92 | It leaves the repository as `InitSpec` describes. |
| Documents.Document.SaveIn | lib/colonel/document.rb:71-85 | `save_in!` as documented: the result and repository are those of `SaveSpec`, and the document's revision becomes the new commit. |
| Documents.Document.Save | lib/colonel/document.rb:54-56 | `save!` is `save_in!` on `master`. |
| Documents.Document.SaveInAsWritten | lib/colonel/document.rb:71-85 | `save_in!` as written: the result and repository are those of `SaveAsWrittenSpec`, and the revision is unchanged. |
| Documents.Document.Promote | lib/colonel/document.rb:169-177 | `promote!` as documented: the result and repository are those of `PromoteSpec`, and the repository is unchanged on error. |
| Documents.Document.PromoteAsWritten | lib/colonel/document.rb:169-177 | `promote!` as written, the same with `PromoteAsWrittenSpec`. |
| Documents.Document.History | lib/colonel/document.rb:123-153 | Called without a block, the loop builds exactly `HistorySpec` of the repository, the state and the document's revision. |
| Documents.Document.HasAncestor | lib/colonel/document.rb:260-270 | The loop computes exactly the `AncestorWalk` whose meaning `LineageFacts.WalkSearchesTrail` states. |
| Documents.Document.HasBeenPromoted | lib/colonel/document.rb:191-204 | The nested loops compute exactly `PromotedOf`, whose meaning `LineageFacts.PromotedIff` states. |
| DocumentFacts.StateRefNames | lib/colonel/document.rb:72 | State references never collide with `HEAD` or the root tag, different states have different references, and `refs/head/<s>` is never a state reference. |
| DocumentFacts.ReadWritten | lib/colonel/document.rb:80 | The content of a written revision reads back as the content written. |
| DocumentFacts.WriteFacts | lib/colonel/document.rb:80 | After a write, the reference names the new commit, whose parents are the given ones; every other reference is unchanged. |
| DocumentFacts.WriteConsistent | lib/colonel/document.rb:80 | Writing on top of existing commits keeps the repository consistent: closed store, root tag, direct state references to commits. |
| DocumentFacts.InitFacts | lib/colonel/document.rb:88-92 | Initialisation is idempotent and touches only an empty repository. There it adds a parentless, content-free root and the `refs/tags/root` tag. |
| DocumentFacts.InitEmpty | lib/colonel/document.rb:88-92 | On an empty repository the root tag names the new root revision. |
| DocumentFacts.InitConsistent | lib/colonel/document.rb:88-92 | Initialisation keeps a repository consistent and leaves it non-empty. |
| DocumentFacts.SaveParentFacts | lib/colonel/document.rb:78 | On a consistent repository the parent of a save exists: the state's tip, or the root when the state is new. |
| DocumentFacts.HistoryOfCommit | lib/colonel/document.rb:123-153 | On a consistent repository, the history from any commit can be read. |
| DocumentFacts.HistoryOfGrows | lib/colonel/document.rb:123-153 | More objects with the same root leave a readable history unchanged. |
| DocumentFacts.RootStays | lib/colonel/document.rb:272-274 | Moving any reference but the root tag keeps the root revision. |
| DocumentFacts.HistoryOfNew | lib/colonel/document.rb:136-150 | A new commit's history is its entry, alone when it sits on the root, else followed by its first parent's history. |
| DocumentFacts.WriteHistory | lib/colonel/document.rb:80 | Writing a revision on top of a state prepends exactly one entry to that history. |
| DocumentFacts.SaveFacts | lib/colonel/document.rb:71-85 | A save fails exactly when its parent is missing, and then leaves only the initialisation. Otherwise the new commit has the right tree and single parent and reads back as the content. It becomes the state's tip, exactly its three objects are added, and no other reference moves. |
| DocumentFacts.SaveConsistent | lib/colonel/document.rb:71-85 | On a consistent repository a save succeeds and keeps it consistent. |
| DocumentFacts.SaveHistory | lib/colonel/document.rb:71-85 | After a save the state's history is the new entry followed by the old history (empty for a new state). |
| DocumentFacts.WriteKeepsHistory | lib/colonel/document.rb:80 | Writing to a reference other than a state's leaves that state's history unchanged. |
| DocumentFacts.SaveKeepsOtherHistories | lib/colonel/document.rb:71-85 | A save leaves the history of every other state unchanged. |
| DocumentFacts.PromoteFacts | lib/colonel/document.rb:169-177 | A promotion fails with `NoSuchState` when the source has no reference, and otherwise exactly when a tip, the base or the content is missing. On success the commit's parents are [destination tip or root, source tip]. It carries the source content, becomes the destination's tip, adds exactly three objects and moves no other reference. |
| DocumentFacts.PromoteParents | lib/colonel/document.rb:170-174 | Both parents of a successful promotion are commits, and the first is the destination's tip or the root. |
| DocumentFacts.PromoteConsistent | lib/colonel/document.rb:169-177 | Promotion keeps a repository consistent. |
| DocumentFacts.PromoteHistory | lib/colonel/document.rb:169-177 | After a promotion the destination's history is the merge entry (with source and, unless the base is the root, previous) followed by its old history. |
| DocumentFacts.PromoteKeepsOtherHistories | lib/colonel/document.rb:169-177 | A promotion leaves every other state's history unchanged, including the source's. |
| DocumentFacts.PromoteRecorded | lib/colonel/document.rb:179-204 | After promoting `from` to `to`, `has_been_promoted?(to, from's tip)` is true. |
| DocumentFacts.PromotedStaysAfterWrite | lib/colonel/document.rb:191-204 | A write on top of a state's tip, or to another reference, keeps every recorded promotion recorded. |
| DocumentFacts.PromotedStaysAfterSave | lib/colonel/document.rb:191-204 | Saves never erase a recorded promotion. |
| DocumentFacts.PromotedStaysAfterPromote | lib/colonel/document.rb:191-204 | Later promotions never erase a recorded promotion. |
| DocumentFacts.SaveAsWrittenLeavesStates | lib/colonel/document.rb:72 | `save_in!` as written moves no state tip and not the root tag, and answers the document's previous revision. |
| DocumentFacts.SaveAsWrittenKeepsHistories | lib/colonel/document.rb:72 | Hence, as written, the saved state's history is unchanged too. |
| DocumentFacts.FreshConsistent | lib/colonel/document.rb:207-213 | A new repository is consistent. |
| DocumentFacts.FirstSave | lib/colonel/document.rb:84 | On a new document, `save!` as written answers `nil` and leaves `master` without history. As documented it answers the new revision, which is `master`'s tip with a one-entry history. |
| DocumentFacts.PromoteAsWrittenContent | lib/colonel/document.rb:176 | As written the promoted revision holds the text `null`. As documented it holds the source revision's content. |
| Serializer.CommitObjects | lib/colonel/serializer.rb:100-110 | `write_commit` succeeds only for a commit in the store and writes three objects of the store, starting with the commit. |
| Serializer.ChainObjects | lib/colonel/serializer.rb:26-32 | The walk down a reference writes only objects of the store. |
| Serializer.RefsObjects | lib/colonel/serializer.rb:24-33 | Walking every reference writes only objects of the store. |
| Serializer.DocObjects | lib/colonel/serializer.rb:21-33 | A document's objects section lists only objects of its repository. |
| Serializer.WriteChain | lib/colonel/serializer.rb:26-32 | The `while` loop writes exactly the records of `ChainObjects`, or fails with its error. |
| Serializer.WriteChains | lib/colonel/serializer.rb:24-33 | The loop over references writes exactly `RefsObjects`'s records, or fails with its error. |
| Serializer.WriteRefs | lib/colonel/serializer.rb:39-42 | One `oid` record is written per reference, in order. |
| Serializer.GenerateDocument | lib/colonel/serializer.rb:16-42 | One document's output is exactly `DumpDoc` of its name and repository. |
| Serializer.Generate | lib/colonel/serializer.rb:13-44 | The output is exactly `DumpAll` of the documents' images, or the first error. |
| Serializer.LeadingSpaces | lib/colonel/serializer.rb:58 | It counts the run of whitespace that `\s*` skips after the tag. |
| Serializer.ReadObjectSpec | lib/colonel/serializer.rb:137-145 | Reading an object record succeeds exactly when a document is open, the data is strict Base64, the length matches and the written oid equals the recorded one. On success it adds exactly that object. |
| Serializer.ReadObject | lib/colonel/serializer.rb:137-145 | `read_object` fails or updates the repository exactly as `ReadObjectSpec` says. |
| Serializer.ReadReference | lib/colonel/serializer.rb:120-128 | `read_reference` fails only with no document open. Otherwise it creates or updates the named reference as `ReadReferenceSpec` says. |
| Serializer.ReadLine | lib/colonel/serializer.rb:57-84 | One pass of the loop body updates the document being read, its name, the section and the finished documents exactly as the line-reader `StepLine` does, and fails exactly when `StepLine` rejects the line. |
| Serializer.Load | lib/colonel/serializer.rb:51-96 | The loop's result is exactly `LoadSpec` of the input lines. |
| Serializer.DumpAllCons | lib/colonel/serializer.rb:15 | The documents are written one after another; the first failure ends the dump. |
| SerializerFacts.HeaderNameOf | lib/colonel/serializer.rb:58 | The header regexp captures exactly the name after the tag and any whitespace, for a name that does not start with whitespace. |
| SerializerFacts.HeaderNonEmpty | lib/colonel/serializer.rb:66 | A header the regexp accepts always has a non-empty name, so the "Malformed document header" error never fires. |
| SerializerFacts.MarkersAreNotHeaders | lib/colonel/serializer.rb:57-75 | The two section markers are classified as markers, not as headers or data. |
| SerializerFacts.RecordReadsBack | lib/colonel/serializer.rb:112-145 | Every record `write_object` produces is accepted by `read_object`, which adds exactly that object. |
| SerializerFacts.RecordIntegrity | lib/colonel/serializer.rb:141-144 | A record whose length disagrees with its data fails with `LengthMismatch`, one whose oid disagrees with its contents fails with `OidMismatch`, and otherwise it is accepted. |
| SerializerFacts.ReadReferenceFinds | lib/colonel/serializer.rb:120-128 | After reading a reference record its name resolves to its target, every other name is unchanged, and so are the objects. |
| SerializerFacts.RunAppend | lib/colonel/serializer.rb:56-95 | Reading a stream in two parts is reading the first and then the second from where it stopped. |
| SerializerFacts.LoadStopsAt | lib/colonel/serializer.rb:51-96 | A line that raises ends the load with its error, whatever follows. |
| SerializerFacts.LoadRefusesTampering | lib/colonel/serializer.rb:141-144 | A load that meets a record with a wrong length or a wrong oid fails with that error, whatever follows. |
| SerializerFacts.LoadRefusesMisplacedMarkers | lib/colonel/serializer.rb:70-75 | `references:` outside an objects section and `objects:` anywhere but right after a header end the load with their errors. |
| SerializerFacts.RunObjects | lib/colonel/serializer.rb:75-84 | Reading the object records of a dump adds exactly the listed objects to the open document. |
| SerializerFacts.RunRefs | lib/colonel/serializer.rb:78-79 | Reading reference records assigns each in turn. |
| SerializerFacts.AssignAllAppends | lib/colonel/serializer.rb:123-127 | References with unique names are recreated in their order. |
| SerializerFacts.RefsRebuilt | lib/colonel/serializer.rb:35-42 | Reading the `HEAD` record and the references of a well-formed table rebuilds exactly that table. |
| SerializerFacts.RunOpen | lib/colonel/serializer.rb:58-75 | A header and an `objects:` line open a fresh repository under the header's name. |
| SerializerFacts.RunRefSection | lib/colonel/serializer.rb:35-42 | The references section restores the whole reference table. |
| SerializerFacts.RunDoc | lib/colonel/serializer.rb:56-94 | Reading one dumped document finishes the previous one and leaves this one open with its objects and references restored. |
| SerializerFacts.RunAll | lib/colonel/serializer.rb:56-94 | Reading the dump of several documents restores each in order, and end of stream finalizes the last. |
| SerializerFacts.RoundTrip | lib/colonel/serializer.rb:13-96 | Loading what `generate` wrote gives back every document with its name, its references and the objects written for it. An empty dump is refused at end of stream. |
| SerializerFacts.DumpStarts | lib/colonel/serializer.rb:16 | A dump starts with the first document's header. |
| SerializerFacts.LoadDump | lib/colonel/serializer.rb:51-96 | A non-empty dump loads back to the restored documents. |
| SerializerFacts.RestoreFaithful | lib/colonel/serializer.rb:19-42 | A restored document keeps its name and references. It holds every object the dump listed, and no object the original lacked. |
| DumpHistory.Spine | lib/colonel/serializer.rb:26-32 | The commits the walk down a reference visits are commits of the store, never the root. |
| DumpHistory.ChainCarries | lib/colonel/serializer.rb:26-32 | Every commit on a reference's first-parent line is written together with its tree and content. |
| DumpHistory.RefsCarry | lib/colonel/serializer.rb:24-33 | Every reference's walk is part of the dump. |
| DumpHistory.DumpCarries | lib/colonel/serializer.rb:21-33 | Every commit the dump visits (root included) has its three objects in the dump. |
| DumpHistory.InDumpIsCommit | lib/colonel/serializer.rb:21-33 | On a consistent repository everything the dump visits is a commit. |
| DumpHistory.HistoryKept | lib/colonel/document.rb:136-150 | If a store holds every visited commit, the history from a visited commit is as in the original, provided each visited commit's parents are visited. |
| DumpHistory.TipInDump | lib/colonel/serializer.rb:24-33 | Every state's tip is visited by the dump. |
| DumpHistory.RestoredHolds | lib/colonel/serializer.rb:21-33 | Every visited commit is in the reloaded repository. |
| DumpHistory.ReloadKeepsHistory | lib/colonel/serializer.rb:26-31 | On a repository kept `Covered`, every state's history after dump and reload equals the original's. So does the content at the state's tip. |
| DumpHistory.ContentKept | lib/colonel/serializer.rb:100-110 | The content of every visited revision reads back unchanged after a reload. |
| DumpHistory.FreshCovered | lib/colonel/document.rb:207-213 | A new repository is covered. |
| DumpHistory.InitCovered | lib/colonel/document.rb:88-92 | Initialisation keeps a repository covered. |
| DumpHistory.MoveSpine | lib/colonel/serializer.rb:26-32 | After moving a reference onto a child of its old tip, the walk from it is the new commit plus the old walk. |
| DumpHistory.MoveForward | lib/colonel/serializer.rb:24-33 | After such a move the dump visits only what it visited before, plus the new commit. |
| DumpHistory.MoveBackward | lib/colonel/serializer.rb:24-33 | After such a move the dump still visits everything it did, plus the new commit. |
| DumpHistory.MoveCovered | lib/colonel/serializer.rb:24-33 | Such a move keeps the repository covered. |
| DumpHistory.WriteCovered | lib/colonel/document.rb:80 | Writing a revision whose parents are all visited, on top of its reference's tip or the root, keeps the repository covered. |
| DumpHistory.SaveParentInDump | lib/colonel/document.rb:78 | The parent of a save is visited by the dump. |
| DumpHistory.SaveCovered | lib/colonel/document.rb:71-85 | Saves keep a repository covered. |
| DumpHistory.PromoteParentsInDump | lib/colonel/document.rb:170-174 | Both parents of a promotion are visited by the dump. |
| DumpHistory.PromoteCovered | lib/colonel/document.rb:169-177 | Promotions keep a repository covered. |
| DumpHistory.SaveKeepsHead | lib/colonel/document.rb:71-85 | A save keeps the reference table well formed and `HEAD` first, so the document stays dumpable. |
| DumpHistory.PromoteKeepsHead | lib/colonel/document.rb:169-177 | The same for a promotion. |

## Left out

- SHA-1 is replaced by the identity on (kind, payload), which is injective. libgit2's object encoding is replaced by a length-prefixed byte codec with its own round-trip lemmas.
- Revision (`Revision.new`, `#write!`, `.commit!`, `revisions[state]`) is not part of this model. Writing a revision is modelled by its observable effect: blob, one-entry tree and commit are added, then the reference moves. The parent of a save is modelled as the state's tip, or the root for a new state. The root revision's author ("The Colonel"), message ("First Commit") and time (the timestamp of the operation that initialises the repository) are this model's choice: `init_repository` passes none of them to `Revision.new` and does not use its own `timestamp` parameter.
- `load!` and `Document.open` are left out. `load!` resolves `HEAD` to the tip of `refs/heads/master`, reads that commit's tree and content blob, and sets `@revision`. It raises when `refs/heads/master` does not exist or an object is missing. Reading a revision's content is modelled by `Lineage.ReadContent`; the resolution of `HEAD` is not modelled.
- `type`, `index` and `index.register` are left out. The document index lives outside this core. `finalize_document` is modelled as appending the loaded image; its call to `load!` is not modelled (see the Serializer.Load line below).
- `repository` with its storage path and backend choice is left out: file-system and backend configuration. Each document owns one repository object.
- JSON text is left out. Records are modelled by their fields, and `serialize_hash`/`load_hash` are taken to be inverse. For this reason, unparsable record lines (the "expected object/reference" errors) are not modelled, and the `type` field of a reference record is ignored on load, as the code ignores it.
- Lines are modelled without their terminators, so names containing a newline are not modelled.
- `strip` after `strict_encode64` is the identity on strict Base64 and is not modelled separately.
- Serializer.Generate: the output written before a failing lookup is not modelled; the result is the error.
- Serializer.Load: the stray object written before an oid mismatch is not modelled; a failed load leaves no repositories.
- Serializer.Load: the block passed to `load` is left out; it is only called after each document is finalized.
- Serializer.Load: finalizing a document cannot fail in the model. In lib/colonel/serializer.rb:130-135 `finalize_document` first calls `document.load!`, whose `repository.head.target_id` (lib/colonel/document.rb:101) raises when `HEAD`'s branch `refs/heads/master` does not exist. `load` then ends with that exception, at the next header (lib/colonel/serializer.rb:62) or at end of stream (lib/colonel/serializer.rb:89). In the model such a document is restored like any other. `Finish` and the header step do not check for `refs/heads/master`, because `load!` is not part of this model.
- SerializerFacts.RoundTrip: it proves a successful reload also for a document that has no `refs/heads/master`: one saved only with `save_in!` to other states, or any document saved with the `save_in!` as written (Findings row for lib/colonel/document.rb:72), whose master is never created. For such a document the source's `load` raises in `finalize_document`, as the Serializer.Load line above says.
- Documents.Document.History: only the call without a block is modelled (lib/colonel/document.rb:118-153). The block form is not: yielding each entry as it is traversed, a `break` in the block ending the walk early, and the `nil` result when a block is given. A block is caller code with non-local control flow; what such a call yields is a prefix of the entries `HistorySpec` gives, and that is not stated as a lemma.
- Serializer.RefsObjects and Serializer.RefSection: references are dumped in the model's table order, which is creation order because a new name is appended. libgit2's `references.each` yields its own storage order (loose references by path, then packed ones). The round trip does not depend on this order, but the reference order in the dump text is not the library's.
- `generate`'s coercion of a single document into a list is left out: Dafny is typed.
- Validity of reference names (checked by the git library) is not modelled.
- Timestamps, authors and messages are parameters; `Time.now` and `SecureRandom` are not modelled.
- `generate` writes `document.name` and `load` calls `Document.new(name)`, which do not match `Document` in lib/colonel/document.rb (no `name`; the constructor takes content). The model uses the document's id as the name written and read back.
- DumpHistory.ReloadKeepsHistory: it requires the invariant `Covered`, because `generate` only walks first parents. `Covered` holds from creation through any sequence of saves and promotions.
- SerializerFacts.RoundTrip: it requires each document to be `Dumpable`: a well-formed table with `HEAD` first and a name without leading whitespace. The dump of a name with leading whitespace does not read back to the same name.

## Findings

| source | as written | input that shows it | evidently intended | confidence | as-written member | corrected member |
|---|---|---|---|---|---|---|
| lib/colonel/document.rb:72 | `save_in!` writes to `refs/head/<state>`, a reference that `history`, `promote!` and `has_been_promoted?` never read (they read `refs/heads/<state>`) | any save, e.g. the first `save!` of a new document: `master` still has no history afterwards | the commit goes on `refs/heads/<state>` and becomes that state's tip | not executed | DocumentFacts.SaveAsWrittenKeepsHistories | DocumentFacts.SaveHistory |
| lib/colonel/document.rb:84 | `save_in!` returns `@revision`, which it never assigns, so it answers the revision from before the save (`nil` for a new document) | the first `save!` of a new document returns `nil` | it returns the new revision, as its documentation says | not executed | DocumentFacts.FirstSave | DocumentFacts.SaveFacts |
| lib/colonel/document.rb:176 | `promote!` commits `@content.to_json`, an instance variable nothing assigns, so the promoted revision holds `null` | promoting any revision whose content is not `null` | the promoted revision carries the content of the source state's tip | not executed | DocumentFacts.PromoteAsWrittenContent | DocumentFacts.PromoteFacts |
