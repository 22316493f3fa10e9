# GoDB in Dafny: storage engine, index and query text

GoDB is a small relational engine. This project models four of its parts and proves what each is for.

**B+ tree index** (`Keys`, `BTreePage`, `BTreeShape`, `BTreeChain`, `BTreeLeaf`, `BTreeDir`, `BTreeIndex`).
Sorted pages in two block files, changed in place; a page is reached by its block number. Ghost state ties the
pages to a tree of separators, to a partition of the keys into leaves in sibling order, and to a map from keys to
record ids. Inserting adds exactly one pair to the map through any cascade of leaf, directory and root splits,
deleting removes exactly one, and a search returns exactly what is stored. Keys are real ranks; `Keys` proves that
comparing two values of one type is comparing their ranks.

**Transactions** (`Locks`, `LockAgreement`, `Frames`, `Buffers`, `Pages`, `LogFile`, `LogRecords`, `Recovery`,
`LogDecoding`, `Engine` and the modules named after it, `Transactions`). The components are classes. `Engine` puts them
together as a step machine over frames, disk blocks, log, lock table and transactions; a step is a call made under a
mutex, cut wherever a disk write happens, a call that would wait is not enabled, and a crash keeps only the disk blocks and
the saved part of the log. Over all runs: the lock counts agree with the locks held, the pool agrees with the disk,
pin counts agree with the transactions' lists, the log runs ahead of the data and commits force it, recovery after a
crash leaves the committed values exactly where the conditions below hold, rollback restores them, and committed
transactions are serially equivalent in the order in which they begin to release. `EngineRestart` goes on over any
number of processes, with crashes inside recovery too, and `EngineFiles` ties the engine's log to the bytes of its
file. `Transactions` carries out the calls of a transaction as runs of these steps.

**Record storage** (`Pages`, `Layouts`, `RecordPages`, `TableScans`). Fields do not overlap whatever the schema, a
written field is read back and nothing else changes, no room is given away between fields, a new slot reads as zeros,
and a scan visits every record exactly when no block after the first is without records.

**Query text** (`Lexers`, `Scanning`, `Queries`, `Parsers`, `TokenParse`, `Grammar`, `SourceTexts`, `SourceParse`,
`ParseRoundTrip`, `Reparsing`). A query written in any of the ways clients may write it, with quoted texts, dates,
capitals, either sign for unequal and any white space, parses to itself, and what the parser accepts are the tokens of
the query it returns. Printing a parsed query and parsing the text gives the query back exactly when its conditions
compare fields, integers and booleans only.

## Where the code does less than its documentation says

- A rollback record is decoded with its type code, 3, for a transaction number (`tx/rollback.go:17`).
  `LogRecords.RoundTripIff` says exactly which records survive the codec. Recovery of a cell then goes wrong in two
  ways: an update that was rolled back by a transaction other than 3 is undone once more, and a committed update
  behind it is lost (`EngineFailures.LostUpdate` is such a run); and the rollback record of any transaction keeps
  recovery from undoing an unfinished update by transaction 3 (`EngineFailures.SurvivingUpdate`).
  `EngineMisread.RecoversIff` is the exact condition.
- A new log block is started by two writes, of zeros and of its boundary (`log/manager.go:113-124`). After a crash
  between them the log cannot be read, so that nothing is recovered: the first record read is empty, and decoding it
  fails. `LogDecoding.CrashLogReads` says that this is the only such moment, and how to tell it from the file. The
  engine speaks of it as a torn log; `EngineFiles.CrashAtomicFile` and `EngineFiles.TornLost` say what recovery makes of
  the bytes of the file, before and after. Recovery's own checkpoint may start a block too, and a crash in between has
  the same effect (`EngineRestart.CanEndIff`).
- No start record is written and transaction numbers start over with the process, so a rollback also undoes what an
  earlier process did under its number. `Recovery.RollbackRestoresIff` gives the exact condition; the engine's
  theorems ask for it, cell by cell, of the transactions that roll back.
- The upgrade test of the lock table is sound exactly when the caller already holds a lock or nobody does
  (`LockAgreement.UpgradeSoundIff`).
- Splitting a page leaves room for the waiting entry exactly when a page holds at least two
  (`BTreePage.SplitMakesRoomIff`), and a split leaf is searched completely exactly when it was not cut inside a run of
  equal keys (`BTreeLeaf.SplitFindsAllIff`, `BTreeLeaf.EntryHidden`). The index theorems are for distinct keys and
  capacity two or more.
- A page keeps 32 bits of an integer key and the whole seconds of a date, so another key is not found again
  (`Keys.KeptOnPageIff`).
- A table scan fails on the first empty block after block 0 (`TableScans.ScanAll`, `TableScans.ScanFails`).
- Text and date constants print without quotes and do not come back (`Reparsing.RoundTripIff`); a text that looks like
  an identifier, an integer or a boolean comes back as one (`Reparsing.TextsReadAs`). A syntax error right behind a
  boolean or date constant is passed over and the constant's value is lost (`Reparsing.ErrorPassedOver`).
- The scanner of numbers takes the blanks behind a number or date into it. A date with a blank right behind it is
  therefore a syntax error, and a written query is refused exactly when it has such a date
  (`SourceParse.SourceParses`, `SourceTexts.SpoiltReads`); two numbers with blanks between them read as one
  (`Scanning.NumbersJoin`). A star behind names and a comma is passed over (`Grammar.AcceptedIsQuery`).
- Unpinning a buffer that is not pinned makes the count of available buffers wrong (`Buffers.Manager.Unpin`).

## Model

| member | source | states |
|---|---|---|
| Keys.CompareValsIsRankOrder | index/btree/page.go:328-378 | compareVals on two keys of one type is the order of their ranks, and equal ranks are equal keys |
| Keys.ComparedAs | index/btree/page.go:328-378 | the smaller number, false, the earlier instant come first, and of two strings the one with the smaller byte where they differ or that ends there |
| Keys.KeptOnPageIff | file/page.go:35-37 | a key equals what a page keeps of it, and is found again, exactly when it is an int of 32 bits, a date of whole seconds, or of another type |
| BTreePage.FullIffAtCapacity | index/btree/page.go:145-151 | a page within capacity fits in its block, and is full exactly at capacity |
| BTreePage.SplitMakesRoomIff | index/btree/leaf.go:125-182 | splitting a full page in the middle makes room exactly when a page holds two entries or more |
| BTreePage.PageFile.IsFull | index/btree/page.go:145-151 | the byte test answers whether the page is at capacity |
| BTreePage.PageFile.FindDirSlot | index/btree/page.go:288-305 | the last slot whose key is at most the search key, -1 if none |
| BTreePage.PageFile.FindLeafSlot | index/btree/page.go:309-325 | the slot before the first key not below the search key |
| BTreePage.PageFile.InsertSlot | index/btree/page.go:154-166 | the entries from a slot on move up by one, the ones before and every other page stay |
| BTreePage.PageFile.DeleteSlot | index/btree/page.go:168-179 | exactly the entry of the slot is gone, the others keep their order |
| BTreePage.PageFile.TransferTo | index/btree/page.go:185-244 | one entry copied to a slot of another page |
| BTreePage.PageFile.Split | index/btree/page.go:247-285 | the entries from the split point on are in a new page in order, the others stay, nothing is lost or doubled |
| BTreeLeaf.BTreeLeaf.constructor | index/btree/leaf.go:24-42 | the leaf cursor stands before the first key not below the search key |
| BTreeLeaf.BTreeLeaf.Next | index/btree/leaf.go:52-90 | moves to the next entry with the search key along the siblings, over emptied leaves, skipping none; false exactly when there is none |
| BTreeLeaf.BTreeLeaf.GetDataRID | index/btree/leaf.go:92-94 | the record id stored at the current entry |
| BTreeLeaf.BTreeLeaf.DeleteCurrent | index/btree/leaf.go:96-98 | removes the current entry of its page and nothing else |
| BTreeLeaf.BTreeLeaf.Insert | index/btree/leaf.go:102-193 | the page with the entry in its place, or its two halves with the entry in one and the sibling chain linked; with distinct keys, one unbounded page cut at the promoted key; it is split exactly if it was full |
| BTreeLeaf.SplitFindsAllIff | index/btree/leaf.go:125-193 | after a split, descending past the promoted separator and starting the cursor there leaves every entry of the two pages ahead of the search for its key, exactly when the cut is not inside a run of equal keys |
| BTreeLeaf.EntryHidden | index/btree/leaf.go:125-159 | a page with twice the same key, whose first entry is behind the cursor of a search after the split |
| BTreeDir.FindChildBlock | index/btree/dir.go:176-185 | the child behind the last separator not above the key, the leftmost child if there is none |
| BTreeDir.Search | index/btree/dir.go:44-63 | the descent ends in the leaf whose interval holds the key |
| BTreeDir.InsertEntry | index/btree/dir.go:188-286 | the page, or two pages and the promoted entry, route every key as one unbounded page with the entry would; it is split exactly if it was full |
| BTreeDir.SplitAndPromote | index/btree/dir.go:215-246 | the first key of the right half moves up and its child becomes the right page's leftmost child |
| BTreeDir.Insert | index/btree/dir.go:68-94 | through any depth the subtree stays a search tree and only the split leaf's interval is cut in two |
| BTreeDir.MakeNewRoot | index/btree/dir.go:99-173 | the root stays in block 0, one level higher, and routes every key as before |
| BTreeShape.DescendContains | index/btree/dir.go:44-63 | descending for a key ends in a leaf whose interval contains it |
| BTreeShape.SplitNode | index/btree/dir.go:215-246 | cutting a node at a separator makes two nodes that route every key to the same leaf |
| BTreeShape.InsertLeafPointer | index/btree/dir.go:285-296 | a new leaf pointer cuts exactly one leaf's interval in two |
| BTreeShape.ChildAbsorbed | index/btree/dir.go:85-93 | a child that took an insertion without splitting leaves its parent a search tree |
| BTreeShape.ChildSplit | index/btree/dir.go:85-92 | a child that split, with its promoted entry in the parent, leaves a search tree |
| BTreeChain.CutPartition | index/btree/leaf.go:125-139 | splitting a leaf keeps the chain a partition of all keys in order |
| BTreeChain.CutRouted | index/btree/index.go:168-176 | routing and sibling chain name the same leaf for every key after a split |
| BTreeIndex.Index.constructor | index/btree/index.go:31-92 | an index over empty files is well formed and represents the empty map |
| BTreeIndex.Index.BeforeFirst | index/btree/index.go:110-128 | positions before the key; the index is unchanged |
| BTreeIndex.Index.Next | index/btree/index.go:130-132 | true once with the stored record id if the key is stored, then false |
| BTreeIndex.Index.GetDataRecordID | index/btree/index.go:134-136 | the record id that the map gives for the search key |
| BTreeIndex.Index.Insert | index/btree/index.go:138-179 | a new key: the map gains exactly the pair, and the whole invariant holds through every split |
| BTreeIndex.Index.Delete | index/btree/index.go:181-202 | the map loses exactly the pair if it was there, nothing otherwise |
| Locks.LockTable.SLock | tx/concurrency/lock_table.go:34-70 | granted iff nobody owns the block; one count more |
| Locks.LockTable.XLock | tx/concurrency/lock_table.go:78-108 | granted iff at most one shared lock is out; the count becomes -1 |
| Locks.LockTable.Unlock | tx/concurrency/lock_table.go:113-124 | one shared lock less, or no entry |
| Locks.Manager.SLock | tx/concurrency/manager.go:17-26 | a held lock suffices, else a shared one is asked for |
| Locks.Manager.XLock | tx/concurrency/manager.go:31-42 | shared first, then upgraded; a refused upgrade keeps the shared lock |
| Locks.Manager.Release | tx/concurrency/manager.go:44-49 | every block held is unlocked once, in whatever order |
| LockAgreement.CountsTell | tx/concurrency/lock_table.go:78-124 | count k iff k shared holders and no owner, -1 iff one owner and no other holder |
| LockAgreement.Exclusive | tx/concurrency/lock_table.go:78-108 | an owner excludes every other holder |
| LockAgreement.UpgradeSoundIff | tx/concurrency/lock_table.go:78-108 | the upgrade test keeps the agreement exactly when the caller holds a lock or nobody does |
| LockAgreement.LocksAgreeAlways | tx/concurrency/manager.go:17-49 | the agreement holds in every state of every run |
| Frames.FoundIsThe | buffer/manager.go:175-183 | in a pool without duplicates the search finds the frame of the block |
| Frames.FoundIsFirst | buffer/manager.go:175-183 | the search answers the first frame that holds the block |
| Frames.ChosenIsFirst | buffer/naive_replacement_strategy.go:37-46 | the choice is the first frame that nobody has pinned |
| Buffers.Buffer.SetModified | buffer/buffer.go:45-52 | an unlogged change keeps the newest LSN |
| Buffers.Buffer.Flush | buffer/buffer.go:81-92 | a dirty buffer's log records are saved, then its block written; a clean one is left alone |
| Buffers.Buffer.AssignToBlock | buffer/buffer.go:67-78 | what it held is written out, then it holds the block as on disk, or its old bytes for a block past the end of the file |
| Buffers.Manager.FindExistingBuffer | buffer/manager.go:175-183 | the first buffer that holds the block |
| Buffers.Manager.ChooseUnpinnedBuffer | buffer/naive_replacement_strategy.go:37-46 | the first buffer not pinned |
| Buffers.Manager.Pin | buffer/manager.go:154-172 | the new pool, disk and saved LSN as a function of the old; the count of available buffers is that of unpinned ones |
| Buffers.PinMeaning | buffer/manager.go:154-172 | the first frame with the block has one pin more; or else the first unpinned frame was written out if dirty, its log records first, and holds the block with one pin; or nothing changed; no other frame did |
| Buffers.Manager.Unpin | buffer/manager.go:74-85 | one pin less on that buffer, and the count of available buffers still right exactly if it was pinned |
| Buffers.Manager.FlushAll | buffer/manager.go:57-70 | the transaction's buffers flushed in pool order |
| Buffers.FlushAllMeaning | buffer/manager.go:57-70 | afterwards they are clean and their blocks on disk, and nothing else changed |
| Buffers.BufferList.Pin | tx/buffer_list.go:40-57 | a block on the list is only counted once more, a new one is pinned in the pool |
| Buffers.BufferList.Unpin | tx/buffer_list.go:60-73 | the pool's pin goes back with the last unpin and not before |
| Buffers.BufferList.UnpinAll | tx/buffer_list.go:78-83 | one pin less for each block, however often it was pinned |
| Buffers.BufferList.GetBuffer | tx/buffer_list.go:30-36 | the pinned buffer that holds a block on the list, and none for another block |
| EngineBuffers.PinIsSteps | buffer/manager.go:154-172 | pinning is a pin step, after a flush step if a buffer is taken over, exactly unless the block is past the end of the file and the buffer keeps the bytes it held |
| EngineBuffers.FlushAllIsRun | buffer/manager.go:57-70 | flushing a transaction's buffers is a run of flush steps after which none is dirty |
| EnginePool.PoolKept | buffer/manager.go:154-172 | every step keeps the pool in agreement with the disk; only writes and undos change what a client sees, and only their cell |
| EnginePool.PoolAlwaysOk | buffer/manager.go:57-172 | in every state no block is in two buffers, clean buffers equal the disk, dirty ones belong to the owner of the block |
| EnginePins.PinsAlwaysOk | tx/buffer_list.go:40-73 | in every state a buffer's pins count the transactions whose lists hold its block |
| EnginePins.PinnedStays | buffer/naive_replacement_strategy.go:37-46 | no step takes a pinned block out of its buffer |
| Pages.NarrowIff | file/page.go:30-47 | a signed field of k bytes holds a number exactly when it is in range |
| Pages.BigEndian | file/page.go:30-47 | the bytes of a number of 2, 4 or 8 bytes, most significant first |
| Pages.BoolByte | file/page.go:94-104 | a boolean is written as 1 or 0, and any other byte than 0 reads as true |
| Pages.RunesIff | file/page.go:77-84 | text is valid, with so many characters, exactly when it is so many Unicode scalar values in UTF-8 (section 3 of RFC 3629) |
| Pages.EncUint | file/page.go:30-47 | encoding the number that some bytes read as gives those bytes back |
| Pages.NumRoundTrip | file/page.go:30-47 | reading back a written number, and exactly when it is the number itself |
| Pages.SpliceElsewhere | file/page.go:35-65 | a write leaves every disjoint stretch of the page alone |
| Pages.BytesRoundTrip | file/page.go:50-65 | bytes read back exactly when they fit on the page |
| Pages.TextFits | file/page.go:116-118 | a valid text fits in the room given for its number of characters |
| Pages.Page.Put | file/page.go:60-65 | the bytes are copied as far as the page reaches, the rest of the page stays |
| LogFile.RecordAdded | log/manager.go:84-107 | a record written in front of the others and the boundary moved: the block's records are it and the old ones |
| LogFile.BlockStarted | log/manager.go:95-100 | starting a block behind a full, saved one keeps all records |
| LogFile.StartImages | log/manager.go:113-124 | of the two files that starting a block leaves on disk, the first is torn and the second whole, and both hold the records there were |
| LogFile.WholeIff | log/manager.go:26-58 | a file left by a crash is one to go on with exactly when the boundary in its last block is not 0 |
| LogFile.TornRead | log/iterator.go:41-55 | the first record read from a torn file is empty |
| LogFile.PageWritten | log/manager.go:127-133 | writing the page makes the records on disk all the records |
| LogFile.Manager.constructor | log/manager.go:26-58 | any file is opened; the log is in order and holds the file's records exactly when the file was whole |
| LogFile.Manager.Flush | log/manager.go:60-68 | the record with the LSN is on disk afterwards, by the comparison with the last saved LSN; the log is unchanged |
| LogFile.Manager.Append | log/manager.go:80-124 | the log gains exactly the record under the next LSN, in a new block exactly if the page has no room for it, and with room nothing is written; the file after each write on the way, torn or whole, holds the records there were |
| LogFile.Manager.SavedIsSuffix | log/manager.go:127-133 | the records not on disk are the newest, as many as the two LSNs are apart |
| LogFile.Manager.NewIterator | log/manager.go:70-75 | an iterator over all the records, saved first |
| LogFile.Iterator.HasNext | log/iterator.go:34-36 | true exactly when a record is left |
| LogFile.Iterator.Next | log/iterator.go:41-55 | the records come newest first across blocks; an error exactly when none is left |
| LogFile.ReadAll | log/iterator.go:19-65 | reading the whole log gives the appended records reversed |
| LogRecords.RoundTrip | tx/log_record.go:97-129 | decoding an encoded record gives its numbers as far as they fit, and 3 for a rollback's transaction |
| LogRecords.RoundTripIff | tx/rollback.go:14-22 | the record itself comes back exactly when its numbers fit and, for a rollback, when it is transaction 3's |
| LogRecords.RecordLayout | tx/set_int.go:74-100 | the code of each record type, and the byte at which each field of a record begins |
| LogRecords.DecodedFields | tx/log_record.go:97-129 | any bytes decode by their code, with each field read where it begins, or to nothing for another code or too few bytes |
| LogRecords.FieldsKept | tx/set_int.go:74-100 | each field of a set record survives the writes of the later ones |
| LogRecords.WriteToLog | tx/set_string.go:76-104 | the page filled field by field is the record's encoding and is appended; invalid text is an error and appends nothing |
| LogDecoding.DecodedIs | tx/log_record.go:97-129 | a record that fits its fields decodes to what was written, but for a rollback's transaction number |
| LogDecoding.LogReadBack | tx/log_record.go:97-129 | reading a whole log back gives a record for each one written, in order, with its transaction, file name, block, offset and value, rollback numbers apart |
| LogDecoding.CrashLogReads | tx/log_record.go:97-129 | a log file left by a crash is read back, field by field of each record, exactly when the boundary in its last block is not 0 |
| LogDecoding.Log | tx/recovery_manager.go:79-121 | writing a record through page and log manager extends what is read back by exactly it, field by field |
| LogDecoding.RecoveredFromBytes | tx/recovery_manager.go:165-196 | recovering from the bytes of a log file gives each file, block and offset the value of its first set record that no later commit, rollback (of transaction 3) or checkpoint covers, and leaves every other place alone |
| LogDecoding.OneRecordRecovered | tx/set_int.go:62-68 | with one unfinished set record behind a checkpoint, recovery puts its value at its file, block and offset and changes nothing else |
| Recovery.RecoveryManager.DoRollback | tx/recovery_manager.go:126-158 | the loop computes the backward pass for one transaction |
| Recovery.RecoveryManager.DoRecover | tx/recovery_manager.go:165-196 | the loop computes the backward pass to the last checkpoint, with the finished transactions it has met |
| Recovery.RecoveryMeaning | tx/recovery_manager.go:165-196 | a cell ends at the before-image of its oldest undone record, or as it was |
| Recovery.RecoveryRestartable | tx/recovery_manager.go:165-196 | stores that differ only where recovery undoes are recovered to the same values |
| Recovery.RecoveryIdempotent | tx/recovery_manager.go:165-196 | stopping after any prefix and recovering again gives the same values |
| Recovery.FullyRecovered | tx/recovery_manager.go:172-194 | a recovery stopped after its last step is the whole recovery |
| Recovery.RollbackMeaning | tx/recovery_manager.go:126-158 | a cell ends at the before-image of the transaction's oldest update of it, or as it was |
| Recovery.RollbackRestoresIff | tx/recovery_manager.go:126-158 | over any writes of any transactions and any store, a cell returns to its value before the first write by this one, or stays, exactly when the old log holds no update of it that the rollback undoes |
| EngineLog.LogStateKept | tx/recovery_manager.go:32-60 | every step keeps the log in order: nothing behind a transaction's last record, updates of a cell by two transactions separated by the end of the first, first before-images committed |
| EngineValues.GoodKept | tx/transaction.go:140-161 | every step keeps: a cell shows the last committed value, or what the running transaction that owns it wrote or undid |
| EngineValues.WantedAcross | tx/recovery_manager.go:79-83 | the committed value of a cell is unchanged from a transaction's first update until it ends |
| EngineValues.RolledBackValue | tx/recovery_manager.go:48-60 | before its rollback record a transaction's cells hold the committed values again, the before-images of its first updates |
| EngineCrash.SafeAlways | buffer/buffer.go:81-92 | in every state an unsaved update sits in a dirty buffer whose LSN forces its record out, and cells without unfinished updates hold committed values on disk |
| EngineCrash.CommitForces | tx/recovery_manager.go:32-45 | a saved commit record means its updates are saved, its buffers clean and its values on disk until overwritten |
| EngineStamps.WriteAheadAlways | buffer/buffer.go:81-92 | in every state the newest update that a block on disk includes has its record on disk, and a block that is not dirty includes every update made to it |
| EngineStamps.WriteAhead | buffer/buffer.go:81-92 | the same for every run from the start of a process |
| EngineCrash.CrashAtomic | tx/recovery_manager.go:165-196 | recovering the disk of any safe state whose log is not torn leaves in a cell that misread rollback records do not harm the last committed value |
| EngineCrash.CrashAtomicAlways | tx/recovery_manager.go:165-196 | the same for a crash after any step of any run |
| EngineMisread.RecoversIff | tx/rollback.go:14-22 | recovery is right for every crash with a saved log of the same shape, whatever the values and whatever had reached the disk, exactly when the log is not torn, no rolled-back update (of another transaction than 3) is followed by a committed one, and every unfinished update by transaction 3 with a rollback record behind it has a rolled-back one before it |
| EngineFailures.LostUpdate | tx/rollback.go:14-22 | a run after which recovery loses a committed update |
| EngineFailures.SurvivingUpdate | tx/rollback.go:14-22 | a run after which recovery keeps an uncommitted update |
| EngineFiles.TornIff | log/manager.go:113-124 | the engine's log is torn exactly when the boundary in the last block of its file is 0 |
| EngineFiles.FileRecovers | tx/recovery_manager.go:165-196 | reading the bytes of the log file, decoding and undoing gives what the engine says of recovery, torn or not |
| EngineFiles.CrashAtomicFile | tx/recovery_manager.go:165-196 | after a crash, recovery from the bytes of the log file leaves the last committed value in a cell that misread records do not harm, exactly when the boundary in the last block is not 0 |
| EngineFiles.TornLost | log/manager.go:113-124 | from any state whose log is saved one step leads to a file that cannot be read, and from which nothing is recovered |
| EngineRestart.RecoveryEnds | tx/recovery_manager.go:62-83 | recovery through buffers, with crashes inside it, those within its own checkpoint included, and blocks written out at any moment, ends with the disk that the backward pass describes |
| EngineRestart.CanEndIff | tx/recovery_manager.go:62-83 | however it was interrupted, recovery can be brought to its end exactly unless a crash fell between the two writes that start the log block of its checkpoint |
| EngineRestart.LifeOf | tx/transaction.go:84-92 | a process is safe up to its crash, and its recovery leaves on disk what it committed |
| EngineRestart.NextProcess | tx/transaction.go:84-92 | the process behind the checkpoint starts clean, safe, and with those values |
| EngineRestart.ManyProcesses | tx/transaction.go:84-92 | after any number of processes and crashes a cell has the last value that any transaction of any of them committed |
| EngineSerial.ReadSees | tx/transaction.go:109-118 | a read returns what running alone after the committed transactions would |
| EngineSerial.SerialKept | tx/transaction.go:56-79 | every step keeps the serial order an explanation of all reads |
| EngineSerial.SerialEquivalence | tx/transaction.go:56-79 | for every interleaving, committed reads and final contents are those of the serial run in release order |
| Transactions.ReachableSafe | tx/transaction.go:40-51 | every reachable state is crash safe and counts its pins right |
| Transactions.Transaction.GetVal | tx/transaction.go:109-118 | the current value, exactly if the shared lock is granted and the block pinned; a shared lock is taken if none was held, and no other lock, count, pin or transaction changes |
| Transactions.Transaction.SetVal | tx/transaction.go:140-161 | exactly if the exclusive lock is granted and the block pinned, the cell has the value and the log the old one; an error changes no cell and no log; no other lock, count, pin or transaction changes |
| Transactions.GrantedIff | tx/concurrency/lock_table.go:34-108 | a shared lock is refused exactly if another transaction owns the block, an exclusive one exactly if another holds any lock on it |
| Transactions.ReadByAll | tx/transaction.go:109-118 | any number of transactions read a cell while nobody owns its block: all get its value |
| Transactions.Transaction.Pin | tx/transaction.go:96-98 | the block is on the list, exactly if it is in a buffer or one can be taken over; what clients see is unchanged, no other buffer changes, and nothing is written out if the block was in one |
| Transactions.Transaction.FlushAll | buffer/manager.go:57-70 | exactly the buffers that this transaction dirtied are written out and clean |
| Transactions.Transaction.Commit | tx/transaction.go:56-64 | a run of steps that ends with the commit record saved, no locks or pins left, no cell changed, the transaction next in serial order, and the other transactions as they were |
| Transactions.Transaction.Rollback | tx/transaction.go:71-79 | a run of steps after which the changed cells hold the committed values and all others what they had; it fails exactly if the block of an update to undo cannot be pinned, and keeps its locks and pins then; other transactions are as they were |
| Transactions.Transaction.UndoNext | tx/set_int.go:62-68 | pin, put the old value back unlogged, unpin; only cells the transaction changed are touched, and the same blocks can be pinned afterwards |
| Layouts.Schema.AddField | record/schema.go:24-27 | the field is listed last with its type, and the names stay distinct exactly when the name is new |
| Layouts.NewLayout | record/layout.go:27-69 | the layout of the sorted fields; for distinct names it is sound and packed whatever the schema |
| Layouts.LayoutOfPacked | record/layout.go:44-66 | with the types' sizes in numbers: each field at the first multiple of its alignment behind the one before it, the first behind byte 4, and the slot ends at the first multiple of the largest alignment |
| Layouts.LayoutOfOk | record/layout.go:44-66 | fields aligned, pairwise disjoint, behind the flag and inside the slot, slots a multiple of every alignment |
| Layouts.AlignedInSlot | record/layout.go:60-66 | a field is aligned in every slot of a block |
| Layouts.SortByAlignment | record/layout.go:39-42 | the same fields by falling alignment |
| Layouts.MaxAlignment | record/alignment.go:32-40 | the largest alignment, which every field's alignment divides |
| RecordPages.FieldWritten | record/page.go:78-111 | a value the field can hold is read back and every other field and flag of every slot keeps its bytes |
| RecordPages.FlagWritten | record/page.go:217-219 | setting a flag changes no field and no other flag |
| RecordPages.OthersKept | record/page.go:78-111 | whatever another field held it still holds, texts within their declared length included |
| RecordPages.Page.SetVal | record/page.go:78-111 | the bytes of the value are in the block from the field on; if the field can hold it, the field does and only that part of the block changed; invalid text is an error |
| RecordPages.Page.GetVal | record/page.go:42-75 | the value in the field |
| RecordPages.Page.Delete | record/page.go:114-116 | the slot is empty and nothing else changed |
| RecordPages.SlotsFill | record/page.go:206-219 | slots follow one another from byte 0 on with their flag in front, as many as fit in the block |
| RecordPages.FormattedIsBlank | record/page.go:120-160 | a formatted slot reads 0, false, the empty text, and midnight of January 1 of the year 1 |
| RecordPages.Page.Format | record/page.go:120-160 | every slot empty, its fields reading 0, false, empty or the zero date, or an error if a slot exceeds the block |
| RecordPages.Page.SearchAfter | record/page.go:183-198 | the first slot behind one with the flag, -1 if none |
| RecordPages.Page.InsertAfter | record/page.go:169-179 | claims the first empty slot behind one and changes nothing else |
| TableScans.TableScan.Next | query/table/table_scan.go:65-87 | the next record, the end with none left, or an error on a next block without records |
| TableScans.TableScan.Insert | query/table/table_scan.go:208-241 | terminates, claiming the first empty slot behind the position, in a new block of blank fields if there is none |
| TableScans.TableScan.MoveToNewBlock | query/table/table_scan.go:290-312 | a new last block whose slots are all empty and blank |
| TableScans.ScanAll | query/table/table_scan.go:56-87 | every record once in rising order, iff no block after block 0 is without records |
| TableScans.ScanFails | query/table/table_scan.go:65-87 | a table that was given an empty block is not scanned to its end |
| TableScans.InsertKeepsScannable | query/table/table_scan.go:208-241 | inserting keeps every block after block 0 occupied |
| TableScans.InsertKeepsRecords | query/table/table_scan.go:208-241 | inserting leaves every other slot's flag and every field as they were |
| Lexers.Lexer.NextToken | parse/lexer.go:197-278 | the scanned token and position; on an error the current token stays |
| Lexers.Lexer.ScanOperatorText | parse/lexer.go:282-300 | two-character operators are taken whole |
| Queries.QueryString | parse/query_data.go:31-56 | the loops build the query's text |
| Queries.Predicate.ToString | query/predicate.go:112-123 | the terms joined by and |
| Queries.Predicate.ConjoinWith | query/predicate.go:23-25 | the terms of the other behind its own |
| Parsers.Parser.Query | parse/parser.go:140-168 | the methods that drive the lexer compute the parse of the whole text, errors included |
| Parsers.Parser.SelectList | parse/parser.go:170-189 | the fields, or all of them for a star |
| Parsers.Parser.TableList | parse/parser.go:191-206 | the tables |
| Parsers.Parser.ReadPredicate | parse/parser.go:119-136 | the terms, however many ands there are |
| Parsers.Parser.ReadTerm | parse/parser.go:76-102 | two expressions and a known operator |
| Parsers.Parser.Constant | parse/parser.go:28-58 | a constant of the token's type, with the passed-over error |
| Scanning.QuotedScans | parse/lexer.go:302-319 | a quoted text is what is between its quotes, whatever comes behind |
| Scanning.UnclosedFails | parse/lexer.go:302-319 | a quote that is not closed is an error |
| Scanning.NumberReads | parse/lexer.go:233-255 | digits with the blanks that are swallowed behind them read as their number, not as a date |
| Scanning.NumbersJoin | parse/lexer.go:233-255 | digits with blanks inside read as one number |
| Scanning.OperatorAhead | parse/lexer.go:282-300 | an operator is taken whole and the rest of the text is ahead |
| SourceTexts.DateReads | parse/lexer.go:359-377 | a written day of the calendar, with or without a time, reads as its date |
| SourceTexts.SpoiltReads | parse/lexer.go:233-255 | a date with blanks behind it reads as nothing |
| SourceTexts.CasedReads | parse/lexer.go:257-272 | a word written in any case is the word |
| TokenParse.NameIff | parse/lexer.go:347-356 | which texts are identifiers |
| TokenParse.QueryParse | parse/parser.go:140-168 | the tokens of a query parse as the query, or as an error if the lexer stops in front of a date in it |
| Grammar.AcceptedIsQuery | parse/parser.go:140-168 | whatever text is accepted, the tokens read there are select, fields, from, tables, and where with its terms, those of the query returned |
| SourceParse.PieceScans | parse/lexer.go:197-278 | scanning a written piece gives its token and leaves the rest of the text ahead; a spoilt date is an error |
| SourceParse.SourceParses | parse/parser.go:140-168 | a written query, in any case, with either sign for unequal, quoted texts, dates and any white space, up to its end or a semicolon, parses to itself, or is refused exactly if a date in it has a blank right behind it |
| SourceParse.PlainParses | parse/parser.go:140-168 | every query of names, 64-bit integers, booleans, texts without quotes and days of the calendar can be written |
| ParseRoundTrip.OpRoundTrip | query/operators.go:36-60 | operators and their texts undo each other, sign by sign |
| ParseRoundTrip.PrintedQueryParses | parse/query_data.go:31-56 | parsing the printed query gives the same fields, tables and terms in order |
| ParseRoundTrip.PrintingInjective | parse/query_data.go:31-56 | different queries print differently |
| Reparsing.ParsedIsWritable | parse/parser.go:140-168 | whatever text the parser accepts, names are identifiers, integers have 64 bits, texts hold no quote and dates are on the calendar |
| Reparsing.MeantIff | parse/parser.go:140-168 | exactly these queries are what some text parses to |
| Reparsing.PrintedDate | query/expression.go:52-57 | a date prints as it could be written, with its time and zone behind it |
| Reparsing.RoundTripIff | parse/query_data.go:31-56 | a query the parser can return comes back from its printed text exactly when it has no text and no date constant |
| Reparsing.ReparsesIff | parse/query_data.go:31-56 | the same for every query that was parsed from some text |
| Reparsing.TextsReadAs | query/expression.go:52-57 | text constants that look like identifiers, integers or booleans come back as those |
| Reparsing.ErrorPassedOver | parse/parser.go:42-48 | an error behind a boolean constant is passed over, and the query is about false |

## Left out

- Files: real I/O, sync, open-file tables and I/O errors; a block is read and written atomically, and a block of the
  engine that was never written reads as zeros.
- Waiting: timeouts, condition variables, wake-ups and liveness. A call that would wait is not enabled, or answers
  with an error.
- Unlogged writes other than undo writes are not steps of the engine.
- Engine cells are disjoint typed cells; the bytes behind a shorter text that was put back are not followed there.
  `Pages`, `LogRecords` and `RecordPages` work on bytes.
- The index is seen by one transaction at a time and its pages as entries, not as bytes; block numbers and record ids
  are unbounded integers; keys of one index have one type, and are kept exactly, which `Keys.KeptOnPageIff` says is so
  for integers of 32 bits and dates of whole seconds.
- BTreeIndex.Index.Insert: is for a key that is not stored yet, because a leaf that is cut inside a run of equal keys
  hides entries (`BTreeLeaf.SplitFindsAllIff`).
- BTreeLeaf.BTreeLeaf.Insert: is for pages with room for two entries or more, because splitting a smaller one makes no
  room (`BTreePage.SplitMakesRoomIff`).
- Buffers.Buffer.Flush: sees the log manager as its two LSNs, because `LogFile.Manager.Flush` has the same contract
  and adds the log's contents.
- Recovery.RecoveryManager.DoRecover: works on decoded records and a store of cells; its buffers, its crashes and the
  checkpoint behind it are those of `EngineRestart`, and its pins and locks are not followed since nobody else runs.
- Transactions.Transaction.SetVal: values are those that a page takes. Storing text that is not valid UTF-8, where the
  code has logged the old value before the page refuses the new one, is not a call here.
- RecordPages.Page.SetVal: locks, log records and pins of the record page's reads and writes are those of
  `Transactions`, and are not repeated there. Which neighbours a text longer than declared runs over is not worked out.
- TableScans.TableScan.constructor: opening a table of zero blocks, which appends and formats block 0, is
  `TableScans.TableScan.MoveToNewBlock` and not a separate operation.
- Parsers.Parser.Query: only queries; the update commands, which the printer does not print, are not modelled.
- Lexers.Lexer.NextToken: letters, digits and spaces outside ASCII are taken for unexpected characters.
- A claim that layouts are minimal: sorting by falling alignment does not give it.
- Product, select and project scans, plans, statistics, catalog, hash index, update planner, server and
  command line: plumbing or easy members.
