# Download, store, serve: a model of apt-cacher-ng

apt-cacher-ng downloads a file once and serves it to any number of clients, some of them while it
still comes in. This project models the state machinery behind that and proves what it is for. Each
part has a specification written as functions, the loops and objects of the program written in place
and shown to do what the functions say, and theorems about all runs of them.

The main results:

- **Whole way of a chunked answer** (`text`, `splitter`, `header`, `acbuf`, `decoder`, `fragments`,
  `fragility`, `places`, `dljob`, `sender`, `clientjob`, `chunks`, `endtoend`). Whatever the
  growth of the body, the partial sends and the cuts on the wire, the downloader stores exactly the body
  (`EndToEnd.ChunkedDelivery`). How a byte stream of pipelined answers is cut does not matter, exactly
  if it meets none of three fragile places (`Fragility.IndependentIffNotFragile`), and ordinary streams meet
  none (`FragilePlaces.PlainStreams`).
- **Ranges** (`delivery`, `promise`). A range answer delivers exactly the bytes it promised
  (`Delivery.RangeDelivery`), and the downloader that reads it gets exactly these (`Promise.RangeArrives`).
- **One version** (`status`, `fileitem`, `singleversion`, `staleprobe`, `references`, `restart`,
  `storageitem`). Over all runs of jobs, readers, drops, resumptions and remote changes with an honest
  server and without a spoiling probe answer, what is checked on disk and what readers got is a prefix of one
  remote version (`SingleVersion.SingleVersionDelivery`; the exact condition is in
  `StaleProbe.AlwaysInvIff`), and so it goes on over any number of runs of the server
  (`Restart.DeliveryAcrossRuns`, with the exact conditions in `Restart.RunEndsWellIff` and
  `Restart.RefusedIff`). Whatever the server does, nobody waits for an item that nobody downloads
  (`References.NoAbandonedReaders`).
- **From the wire to the disk** (`download`, `wiretodisk`). Decoder and item together: whatever pieces an
  answer comes in, and whatever else happens to the item meanwhile, the calls of the decoder are the steps of
  such a run (`WireToDisk.WireToReaders`).
- **The agent** (`redirect`, `agent`, `conservation`, `pipelining`, `wire`, `exchange`, `retries`, `dlagent`).
  No job is lost (`Conservation.Conservation`), each job decodes the answer to its own request
  (`Wire.AnswersInOrder`, `Exchanging.OwnAnswers`, `Pipelining.AnswersMatch`, with the exact condition in
  `Pipelining.PostMatchesIff`), and retries are bounded (`Retries.BoundedRetries`).
- **The registry** (`registry`), on shared objects: use counts are holders, one item per path, and
  displaced items do not disturb their successors.
- **Expiration** (`expiration`, `expirer`): over all sequences of runs, with a text file in between, a
  file is removed only after a full streak of being unreferenced (`Expiration.RemovalIsSafe`), and after
  such a streak it is (`Expiration.RemovalHappens`).
- **The patch engine** (`edscript`, `edhunks`): in-place line edits are simultaneous edits against the old
  line numbers (`EdHunks.PatchesAsMeant`).
- **Small protocols and algorithms** (`addresses`, `resolver`, `joining`, `dnsbase`, `threadpool`,
  `cleaner`, `fish`, `storedhead`).

`dafny verify dfyconfig.toml` checks all of it.

## Where the code does not do what it seems to

Each of these is a lemma or a contract, with the exact condition where there is one.

- Decoding depends on how the bytes arrive behind an interim answer (`src/dlcon.cc:540-544`), at a
  redirection whose body is already there (`src/dlcon.cc:553-557`; the announced length is dropped from the
  front of the buffer, head included), and at a blank chunk-size line (`src/dlcon.cc:689`; `sscanf` reads on
  in the next line): `Fragility.IndependentIffNotFragile`; streams that show it are in
  `FragilePlaces.TwoInterims`, `FragilePlaces.PageOfRedirect` and `FragilePlaces.BlankSizeLine`.
- A negative Content-Length of a redirection passes the same test, and moves the read index of the buffer
  back (`src/dlcon.cc:555-557`): `Buffer.AcBuf.Drop` says what shows up then.
- A chunk size is scanned into 32 bits: `Text.HexRoundTrip`.
- The branch for the one-byte probe (`src/dlcon.cc:816-828`) also catches the last byte of a resumed
  download, and declares the file complete without it: `StaleProbe.SpoilsExactly`, `StaleProbe.AlwaysInvIff`;
  a run in `StaleProbe.StaleLastByte`. It cannot happen without an answer that can be told by its looks:
  `StaleProbe.NoLateProbeNoSpoils`.
- An in-place rewrite that is given up (`src/fileitem.cc:349-388`) leaves old bytes under the head of
  the new version: exactly when is in `Restart.GivenUpIff` and `Restart.RunEndsWellIff`, a run in
  `StaleProbe.AbandonedRewrite`.
- A 404 on resuming (`src/fileitem.cc:550-558`) makes a part pass for the whole file: exactly when is in
  `Restart.PartTakenIff` and `Restart.RefusedIff`, a run in `StaleProbe.PartTakenForAll`.
- An invalid head makes the file that came before it on the connection fail (`src/dlcon.cc:507-514`, `1386-1387`),
  even if it is complete and being read; two pipelined requests, a whole answer to the first and nine bytes
  that are no head do it (`Exchanging.InvalidNext`, `References.CompleteIsKilled`). Exactly when a
  finished item stays as it is is in `References.FinishedStaysIff`. The truncation that is asked for with it
  never takes effect (`FileItem.DestroyModeSticks`).
- A star for the total of a partial answer (`src/dlcon.cc:813`) is read as 0, not as the unknown length the
  comment names: the part on disk is replaced by an empty file, and the item fails (`Restart.ResumesIff`);
  until then a reader is promised no bytes.
- The Content-Range of a request for the first byte alone names the whole file (`src/job.cc:1103`):
  `Promise.RangeNamedIff`.
- Errors ask for truncation or removal of the file, but the mode can only be lowered from KEEP
  (`src/fileitem.cc:577-578`): `FileItem.DestroyModeSticks`.
- A redirection that is not a whole URL, in backend mode, keeps the backend set
  (`src/dlcon.cc:228-256`), and its path is used twice: `Redirect.LeadsThereIff`, for chains
  `Redirect.ChainLeadsIff` and `Redirect.LaterLeadIff`, an example in `Redirect.BackendTwice`.
- Jobs go back to the queue while the connection with their requests is kept
  (`src/dlcon.cc:543`, `551`, `692`, `1810`): `Pipelining.PostMatchesIff`, `Pipelining.WrongAnswer`.
- A stop signal can be undone by an AddJob under way (`src/dlcon.cc:1028`, `1089`): exactly when is in
  `Pipelining.StopSticksIff`, a run in `Pipelining.StopIsLost`.
- The deadline of finished volatile items takes the sum for the test of its conditional
  (`src/acregistry.cc:95-96`): `Registry.KeptIff`. In Create, a failed unlink counts as success unless it
  found no file (`src/acregistry.cc:242`), against its comment: `Registry.TFileItemRegistry.Create`.
- Keeping the newest versions (`src/expiration.cc:356-358`) can keep a referenced file on the pending list:
  `Expiration.CoveredIff`.
- The range test of the patch engine admits one line too many (`src/acngtool.cc:472`): `EdHunks.RunHunk`,
  `EdHunks.BehindTheEnd`.
- The command that mends a line which is a full stop (`src/acngtool.cc:695-703`) goes by the line number the
  hunk before has left, which is seldom that of its last line: `EdHunks.MendsIff`, `EdHunks.MendsTheNext`.
- A cancelled DNS lookup is cached as an error (`src/caddrinfo.cc:358-380`): `Joining.CancelledIsKept`. The
  thread limit of the pool does not limit threads (`src/tpool.cc:58`): `ThreadPool.NoThreadLimit`. The
  prefix search can hang on doubled separators (`src/astrop.cc:44-60`): `Fish.StuckIff`.
- A missing head file is success (`src/httpdate.cc:169`), and lets a new version be written over the old
  one: `Restart.MissingHead`.

## Model

| member | source | states |
|---|---|---|
| Text.HexRoundTrip | src/dlcon.cc:688-694 | a size written by the chunk emitter is scanned back by the decoder as the same number, for every number, exactly if it is below 2^32 |
| Text.ScanHexLocal | src/dlcon.cc:681-694 | a size line that is not blank is scanned without looking behind its line end, whatever follows |
| Text.HexReadBack | src/dlcon.cc:688-694 | what the scan makes of a written number in general: the number modulo 2^32 (all ones if it is beyond 64 bits) |
| Text.DecRoundTrip | src/meta.h:140-145 | a decimal length reads back as it was written, whatever non-digit follows |
| Text.CStrExtend | src/dlcon.cc:681-683 | what C string functions see of a buffer that grows: a terminator inside keeps the rest invisible, without one more text shows |
| Text.FindCrlfExtend | src/astrop.h:118-165 | the first separator of a text is that of every longer text, and a new one can only come to lie at the seam |
| Splitter.JoinOfSplit | src/astrop.h:118-165 | the tokens of the strict splitter joined by the separator are the input, and none of them holds a separator |
| Splitter.SplitOfJoin | src/astrop.h:118-165 | tokens without separators, joined and split again, are the same tokens |
| Splitter.StrictSplitter.constructor | src/astrop.h:108-110 | a new walker has the whole line before it, or nothing if the line is empty |
| Splitter.StrictSplitter.Next | src/astrop.h:118-165 | Next moves in place to the next token and leaves exactly the text behind its separator; it fails exactly when nothing is left |
| Splitter.ToDeque | src/astrop.h:226-236 | draining the splitter gives the tokens, which joined are the input |
| HeaderParser.LoadStable | src/header.cc:108-220 | a complete head is recognised with the same length and fields when any bytes follow it, and an error stays an error |
| HeaderParser.LoadLength | src/header.cc:108-220 | a positive result is a position behind the head, at most the length of the text |
| HeaderParser.LoadIncremental | src/header.cc:108-220 | of a text whose head is complete, every cut that ends before the end of the head makes Load ask for more |
| HeaderParser.KindStable | src/header.cc:117-129 | the kind of a message is settled by its first bytes |
| HeaderParser.ParseOfPrinted | src/header.cc:108-220 | an answer head printed with status, message and fields is read back in its full length with that status and those fields |
| HeaderParser.PrintedStatus | src/header.cc:140-145 | a printed status line reads back as the same code and message |
| HeaderParser.PrintedFields | src/header.cc:163-217 | printed fields are collected again one by one, unknown names passed over, later values replacing earlier ones |
| HeaderParser.ResolvePos | src/header.cc:222-233 | the loop over the known names finds the first one that matches without regard to case |
| HeaderParser.Header.TakeFirstLine | src/header.cc:138-162 | the first line is consumed in place as the specification says, or ends the parse |
| HeaderParser.Header.TakeFieldLine | src/header.cc:173-216 | one field or continuation line changes the field table in place as the specification says, or ends the parse |
| HeaderParser.Header.LoadLines | src/header.cc:134-219 | the loop over the lines leaves the table of the specification and its result |
| HeaderParser.Header.Load | src/header.cc:108-220 | Load on an object that is filled in place: fields, kind, status and result are those of the specification |
| Buffer.AcBuf.Drop | src/acbuf.h:32 | dropping forgets exactly the first bytes, and a negative number brings back as many from in front of the read index; an emptied buffer has its full space again |
| Buffer.AcBuf.Erase | src/acbuf.h:30 | erasing keeps exactly the first bytes |
| Buffer.AcBuf.Move | src/acbuf.h:36 | moving within the block keeps the contents and makes the room in front usable |
| Buffer.AcBuf.Terminate | src/acbuf.h:42 | the terminator behind the data does not change the contents |
| Buffer.AcBuf.SysRead | src/acbuf.h:66-71 | a read appends as much as was offered, allowed, and fits |
| DlJobs.DlJob.NewDataHandler | src/dlcon.cc:440-472 | the storing loop consumes what is there up to the announced rest, in place, as the specification of a data turn says |
| DlJobs.DlJob.TakeAnswer | src/dlcon.cc:525-567 | interim answers, redirections and probes are handled in place as specified, and the flags are those |
| DlJobs.DlJob.Accept | src/dlcon.cc:582-652 | length, chunking and the verdict of the cache item set the decoder state as specified |
| DlJobs.DlJob.GetHeaderStep | src/dlcon.cc:492-652 | the header state on a growing buffer does what the specification of its turn says |
| DlJobs.DlJob.ChunkHeadStep | src/dlcon.cc:670-702 | the chunk head state does what the specification of its turn says |
| DlJobs.DlJob.TrailerStep | src/dlcon.cc:703-719 | the trailer state does what the specification of its turn says |
| DlJobs.DlJob.ProcessIncomming | src/dlcon.cc:478-724 | the decoder loop ends, with the state, the unread bytes and the flags of the specification |
| DlJobs.ServeOne | src/dlcon.cc:1329 | when one job of the pipeline decodes, its state and the buffer change as the decoder says, and no other job does |
| DlJobs.ServePipeline | src/dlcon.cc:1324-1361 | the loop over pipelined answers leaves jobs, buffer and flags as the specification of a session says |
| DlJobs.ProbeRest | src/dlcon.cc:1369-1380 | the loop that probes the rest of the pipeline after a redirection changes the jobs behind the front one, up to the first that was not redirected, and tells whether there was one |
| DlJobs.ServeBuffer | src/dlcon.cc:1324-1391 | the data loop with the probing at its end: the jobs, the bytes left, and what ExchangeData returns |
| Fragments.StepSplit | src/dlcon.cc:488-720 | one turn on a part of the bytes, and on more of them: the same turn, or waiting for them, outside the fragile places |
| Fragments.ProcessSplit | src/dlcon.cc:478-724 | decoding a part and then the rest is decoding both at once, if that meets no fragile place |
| Fragments.PumpSplit | src/dlcon.cc:1324-1361 | the same for a pipeline of answers |
| Fragments.FragmentationIndependence | src/dlcon.cc:1324-1361 | for every way to cut a byte stream of pipelined answers, the decoder ends in the same state, with the same stored bytes and unread rest, unless reading it at once meets a fragile place |
| Fragments.AnyTwoSplits | src/dlcon.cc:1324-1361 | two different ways to cut the same bytes end the same |
| Fragility.LoadLocal | src/header.cc:108-220 | the head found in a text depends on nothing behind its last byte |
| Fragility.StepShort | src/dlcon.cc:488-720 | a cut of the bytes that does not reach the turn makes the decoder wait |
| Fragility.ProcessAtCut | src/dlcon.cc:539-558 | a fragile turn, cut right behind the text that makes it so, ends differently: it gives up with bytes the other has consumed, or goes on to a head the other one sits on |
| Fragility.PumpAtCut | src/dlcon.cc:1324-1361 | so does a session that meets one |
| Fragility.SplitMatters | src/dlcon.cc:1324-1361 | there is then a cut into two pieces with another outcome |
| Fragility.IndependentIffNotFragile | src/dlcon.cc:1324-1361 | the outcome is the same for all cuts exactly if reading at once meets no fragile place |
| FragilePlaces.InterimThenHead | src/dlcon.cc:539-544 | an interim answer that does not say close, with another head right behind it, is such a place |
| FragilePlaces.LongRedirect | src/dlcon.cc:546-558 | so is a redirection that is followed and announces more bytes than its head has, if they are all there |
| FragilePlaces.BlankSizeLine | src/dlcon.cc:670-694 | so is a size line of blanks with the next line at hand |
| FragilePlaces.TwoInterims | src/dlcon.cc:539-544 | two interim heads of HTTP in one read are told apart from the same two in two reads |
| FragilePlaces.PageOfRedirect | src/dlcon.cc:546-558 | a redirection with Content-Length 99 and a page that makes up head and page to that is told apart likewise |
| FragilePlaces.PlainStreams | src/dlcon.cc:478-724 | streams in which the decoder meets no interim answer, no redirection to follow, and no size line that starts with anything but a digit can be cut in any way |
| Wire.OneReply | src/dlcon.cc:478-724 | the decoder takes exactly one well-formed answer, sized or chunked, off the stream, stores its body if the item allows it, and leaves the job ready for the next |
| Wire.NotEarlier | src/dlcon.cc:662-669 | on any proper part of an answer the job is not finished |
| Wire.AnswersInOrder | src/dlcon.cc:1324-1361 | for every list of well-formed answers, every way to cut their stream and every part of it that has arrived: exactly as many jobs are finished as answers have arrived whole, and the i-th has the body of the i-th |
| Downloading.OpsStore | src/dlcon.cc:478-724 | in every call of the decoder, what is handed to the item is what the job counts as stored; behind a head it is non-empty data, and the end exactly when the job is finished |
| Downloading.AnswerOps | src/dlcon.cc:478-724 | for every way to cut a well-formed answer, and every part of it that has come: the calls into the item are the question about its head, then data that makes up the body so far, and the end exactly with the last byte |
| WireToDisk.CallsAreFaithful | src/dlcon.cc:440-724 | for every interleaving of these calls with anything else that happens to the item: if the head is honest and the body is that of the version it names, every call is an event of an honest server |
| WireToDisk.WireToReaders | src/dlcon.cc:440-724 | so, from the wire to the disk and to the readers, the item holds and serves one version, if no probe answer spoils it |
| WireToDisk.EndIsWhole | src/fileitem.cc:525-559 | and the call at the end leaves the whole version on disk |
| Delivery.ServingRun | src/job.cc:894-922 | over every run of SendData, what went out is the head and then a prefix of the asked range of the body |
| Delivery.RangeDelivery | src/job.cc:894-922 | for every satisfiable range and every growth and partial send: the promised Content-Length is that of the range, and a job that reports done has sent exactly body[from..from+length) behind its head |
| Delivery.BackwardRange | src/job.cc:1095-1126 | a range that ends before it begins is promised a length that is not positive, and no run of it ends cleanly |
| Promise.HeadKeepsWord | src/job.cc:1095-1130 | the head of a plain answer, read by the parser, is well-formed and announces as its Content-Length exactly the length of the part that was asked for |
| Promise.RangeArrives | src/job.cc:894-922 | for every range, every growth and partial send and every way the bytes are cut: a job that has reported a clean end has sent one well-formed answer, and the downloader that reads it is finished with exactly the part that was asked for |
| Promise.RangeNamedIff | src/job.cc:1103-1110 | the Content-Range names the bytes that are sent exactly unless only the first one is asked for, of more than one; then it names all of them |
| ClientJobs.ClientJob.CookResponseHeader | src/job.cc:1012-1130 | the response head and the next activity, in place, are those of the specification |
| ClientJobs.ClientJob.SendFileData | src/job.cc:894-922 | the plain data state does what its specification says |
| ClientJobs.ClientJob.SendChunkHeader | src/job.cc:923-942 | the chunk header state does what its specification says |
| ClientJobs.ClientJob.SendChunkData | src/job.cc:943-957 | the chunk data state does what its specification says |
| ClientJobs.ClientJob.HandleSuddenError | src/job.cc:984-1010 | an error before the first byte becomes an error page, later a disconnect |
| ClientJobs.ClientJob.SendData | src/job.cc:811-960 | one call of SendData, with any partial send, changes the job as specified |
| Chunks.ChunkHeaderKeeps | src/job.cc:923-942 | starting a chunk keeps: head, complete chunks, one open chunk announced with its true length |
| Chunks.ChunkDataKeeps | src/job.cc:943-957 | so does sending part or all of a chunk |
| Chunks.ChunkRun | src/job.cc:811-960 | over every run of SendData in chunked mode the wire holds the head, whole chunks of the body in order, and at most one begun; at the end it is the encoding of the whole body |
| Chunks.SizeLine | src/dlcon.cc:670-702 | the decoder reads a written size line as that size, below 2^32 |
| Chunks.OneChunk | src/dlcon.cc:653-719 | the decoder stores one encoded chunk and comes to the next |
| Chunks.DecodeEncoded | src/dlcon.cc:653-719 | decoding what was encoded stores exactly the body, uses up exactly the encoding, and finishes |
| EndToEnd.AnnouncesChunks | src/job.cc:1085-1092 | the head of a chunked answer announces chunks to the downloader that reads it, whatever its other fields |
| EndToEnd.ReadsHead | src/dlcon.cc:492-652 | that head puts a fresh download job into chunk mode and is used up exactly |
| EndToEnd.ChunkedDelivery | src/job.cc:811-960 | end to end: for every growth of the body, every partial send and every way the bytes are cut on the wire, the downloader stores exactly the body and is finished at the last byte |
| EndToEnd.NotBefore | src/dlcon.cc:662-669 | and no sooner: on any proper part of the stream it is not finished |
| FileItem.DestroyModeSticks | src/fileitem.cc:561-579 | the destroy mode is only ever lowered; from KEEP no error, whatever mode it asks for, ever schedules the file for truncation or removal |
| SingleVersion.FullAnswer | src/dlcon.cc:772-777 | a 200 answer, first or on resuming, leaves an item whose checked part is a prefix of the version it names |
| SingleVersion.ResumeAnswer | src/dlcon.cc:778-837 | a 206 answer at the requested position continues the version that was asked for |
| SingleVersion.ProbeAnswer | src/dlcon.cc:816-828 | the answer to the one-byte probe completes the item soundly, unless it comes too late for a byte that is wrong |
| SingleVersion.OtherAnswer | src/dlcon.cc:856-894 | any other answer finishes an item nobody has data of |
| SingleVersion.ErrorSound | src/dlcon.cc:743-750 | an error verdict keeps what readers and other jobs rely on |
| SingleVersion.AnswerSound | src/dlcon.cc:726-895 | so does every answer of an honest server that is not such a late probe |
| SingleVersion.OpenStores | src/fileitem.cc:298-410 | opening the file, anew or in place, keeps every checked byte, or fails |
| SingleVersion.OpenChecked | src/fileitem.cc:343-391 | a file of which something is checked is not replaced: that is an error |
| SingleVersion.OverwriteAgrees | src/fileitem.cc:284-294 | bytes written at the checked end extend the agreement with the text and do not disturb it before |
| SingleVersion.AddStores | src/fileitem.cc:264-296 | storing the next bytes of the version, fully or in part, extends the checked prefix and keeps all others |
| SingleVersion.RequestJob | src/dlcon.cc:367-419 | a request names the end of what is checked, or of what is cached, with the date it belongs to |
| SingleVersion.FinishSound | src/fileitem.cc:525-559 | the regular end of a download completes the item with exactly the version |
| SingleVersion.ReadersKept | src/job.cc:839-922 | readers with an open file do not notice an operation that keeps checked bytes |
| SingleVersion.JobKept | src/dlcon.cc:762-766 | other jobs do not notice what the owner does |
| SingleVersion.Leave | src/fileitem.cc:39-56 | a job that goes takes an unfinished item down with it only if it is the last |
| SingleVersion.Step | src/dlcon.cc:726-895 | every event of an honest server, but for a probe answer that spoils the item, keeps the invariant of item, jobs and readers |
| SingleVersion.StepKeeps | src/fileitem.cc:220-296 | and keeps the settled version, the checked bytes of every file, and a finished item, if perhaps as one that was marked as faulty |
| SingleVersion.SingleVersionDelivery | src/dlcon.cc:367-419 | over every run of connects, drops, 200 and 206 answers and remote changes in which the server is honest (true stamps and lengths, Range and If-Range honoured, files with one stamp alike) and no probe answer spoils the item: the checked part of the file is a prefix of one version, settled with the first accepted answer; it never shrinks; every byte a reader got lies in that prefix; a complete file is all of that version |
| References.CountStep | src/dlcon.cc:726-895 | every event, whatever the server sends, keeps: the count is that of the jobs, one job at most owns the item, only its owner has an answer coming in; and a finished item stays as it is, unless an invalid head on a connection that remembers it makes it fail |
| References.NoAbandonedReaders | src/fileitem.cc:33-56 | over every run, whatever the server sends: the reference count is the number of download jobs; with none left the status is COMPLETE or worse; COMPLETE or worse is never left |
| References.FinishedStaysIff | src/fileitem.cc:412-416 | over every run, whatever the server sends: a finished item has its status and code to the end exactly if no invalid head comes in on a connection that remembers it, or it has been marked as faulty before |
| References.CompleteIsKilled | src/tcpconnect.cc:271-279 | that can happen to an item that has just come in whole, under its readers |
| SingleVersion.SetupStartsIff | src/fileitem.cc:98-163 | Setup starts such a run exactly if a file that counts as complete is the version its head names, and one that may be resumed is a prefix of it |
| StaleProbe.SpoilsExactly | src/dlcon.cc:816-828 | an answer of an honest server breaks the invariant exactly if it is taken for the probe answer while a download is under way whose last byte is wrong on disk |
| StaleProbe.AlwaysInvIff | src/dlcon.cc:726-895 | over every run with an honest server: the invariant holds after every event exactly if no answer of the run is such a one |
| StaleProbe.NoLateProbeNoSpoils | src/dlcon.cc:816-828 | none is, if no answer has the shape of a probe answer while its item is being downloaded and less is checked than was cached |
| StaleProbe.StaleLastByte | src/dlcon.cc:816-828 | a run in which that happens: the complete file is neither version |
| StaleProbe.Revalidate | src/dlcon.cc:381-396 | its beginning: the probe of a complete file is answered with a new version |
| StaleProbe.Rewrite | src/fileitem.cc:349-376 | the first byte of it is written over the old file in place |
| Restart.GivenUpIff | src/fileitem.cc:349-388 | a download given up after its head was stored leaves a good start for the next run exactly if the stored length is right or unknown, the file is no longer than the version and agrees with it behind the checked part; it does if there is nothing behind that |
| Restart.PartTakenIff | src/fileitem.cc:550-558 | after an answer that is neither a file nor a part of one, the next run reports the part that is there complete exactly if the request was for what follows it |
| Restart.RefusedIff | src/dlcon.cc:856-894 | such an answer leaves a good start exactly if the start of the range, stored as the length, and the date of the answer are right for what is there |
| Restart.StepPast | src/dlcon.cc:726-895 | every event keeps what has happened to the disk: the old head over the old file or none, or the new head over the open file, or a head that says nothing |
| Restart.RunEndsWellIff | src/fileitem.cc:298-410 | a run without such answers leaves a good start exactly if it leaves no new head over a file that is no part of its version; so it does if nothing unchecked is left under one |
| Restart.DeliveryAcrossRuns | src/fileitem.cc:98-163 | over any number of runs of the server under these conditions, each starting from the disk the one before has left, every run delivers one version |
| Restart.ResumesIff | src/dlcon.cc:811-813 | a partial answer that continues a file is stored exactly if the file is no longer than the total it announces; else, as with a star in its place, the part that was there is lost and the item fails |
| Restart.MissingHead | src/httpdate.cc:167-169 | a missing head file is taken for a good one that says nothing: the file under it is not resumed but written over in place, and its old bytes stand under the new head; one that cannot be read makes the file be replaced |
| Restart.HeadSurvives | src/httpdate.cc:165-225 | the length and date that were stored as text are those the next Setup finds |
| StorageItem.OverwriteTwice | src/fileitem.cc:284-294 | two writes, one after the other, are one write of both |
| StorageItem.FileItemWithStorage.Setup | src/fileitem.cc:98-163 | Setup changes the object as its specification says |
| StorageItem.FileItemWithStorage.DlSetError | src/fileitem.cc:561-579 | so does DlSetError |
| StorageItem.FileItemWithStorage.MarkFaulty | src/fileitem.cc:412-416 | so does MarkFaulty, and a mode of KEEP stays |
| StorageItem.FileItemWithStorage.DlFinish | src/fileitem.cc:525-559 | so does DlFinish |
| StorageItem.FileItemWithStorage.DlRefCountAdd | src/fileitem.cc:33-37 | so does DlRefCountAdd |
| StorageItem.FileItemWithStorage.DlRefCountDec | src/fileitem.cc:39-56 | so does DlRefCountDec |
| StorageItem.FileItemWithStorage.DlStarted | src/fileitem.cc:220-262 | so does DlStarted, with its result |
| StorageItem.FileItemWithStorage.ReplaceFile | src/fileitem.cc:314-341 | so does the replacement of the file, for every failure of the file system |
| StorageItem.FileItemWithStorage.SafeOpenOutFile | src/fileitem.cc:298-410 | so does opening the file, for every failure of the file system |
| StorageItem.FileItemWithStorage.DlAddData | src/fileitem.cc:264-296 | the write loop, with any partial writes, stores what one write of all would; without a fatal error everything is written |
| Redirect.LeadsThereIff | src/dlcon.cc:190-258 | from any state: a followed redirection asks for what its location means exactly if that is a whole URL, or no backend is set, or the backend has no path of its own, or the location is relative and the job is out of backend mode with a slash in its path |
| Redirect.RewriteFollowed | src/dlcon.cc:228-256 | behind every followed redirection a backend that is still set is out of use, with a slash in the path in its place |
| Redirect.LaterLeadIff | src/dlcon.cc:190-258 | so further down a chain exactly the absolute paths go wrong, for a backend with a path |
| Redirect.ChainLeadsIff | src/dlcon.cc:190-258 | for a job that starts in backend mode exactly if it has a backend, a whole chain leads where it points exactly if its first redirection gives a whole URL, or there is no backend, or that has no path |
| Redirect.BackendTwice | src/dlcon.cc:228-234 | a host that redirects inside itself: the path of the backend comes in twice |
| Redirect.FollowsFew | src/dlcon.cc:192-197 | a job follows fewer redirections than its limit |
| Redirect.DownloadSource.RewriteSource | src/dlcon.cc:190-258 | the object is changed in place as specified, with the result |
| Agent.SetupIff | src/dlcon.cc:260-307 | SetupJobConfig succeeds exactly if some candidate is not blacklisted; then the chosen peer is not; a usable one in use is kept |
| Agent.DecoderFlags | src/dlcon.cc:478-724 | which sets of flags the decoder can hand up at all |
| Exchanging.DataLoopReturns | src/dlcon.cc:1324-1391 | for all bytes and decoder states, what the data loop returns is an exchange as the loop of the agent relies on, and the jobs that count as finished are those whose decoders have finished |
| Exchanging.OwnAnswers | src/dlcon.cc:1324-1361 | for every server that answers in order, and however much has arrived in whatever pieces, a finished job has the answer to the request sent in its place; with requests and jobs in step that is its own |
| Exchanging.KillsIff | src/dlcon.cc:507-514 | the decoder asks for the last file to be given up exactly if a head is invalid |
| Exchanging.InvalidNext | src/dlcon.cc:1341-1387 | two pipelined requests, a whole answer to the first, and then bytes that are no head: the first job is finished, and its file is to be given up |
| Conservation.FillKeeps | src/dlcon.cc:1596-1654 | filling the pipeline moves or drops jobs and loses none |
| Conservation.ReopenKeeps | src/dlcon.cc:1479-1593 | nor does clearing, purging and reconnecting |
| Conservation.PrepareKeeps | src/dlcon.cc:1449-1654 | nor does a whole pass up to the select call |
| Conservation.GiveUpKeeps | src/dlcon.cc:1779-1808 | nor does giving up the front job and what others are downloading |
| Conservation.PostKeeps | src/dlcon.cc:1663-1810 | nor does what follows ExchangeData |
| Conservation.StepConserves | src/dlcon.cc:1020-1048 | each step keeps every job, as often as it was added, in exactly one of new, next, active and destroyed |
| Conservation.PrepareTidy | src/dlcon.cc:1475-1486 | a pass keeps: no connection, no active jobs; and nothing was ever cleared away |
| Conservation.PostTidy | src/dlcon.cc:1692-1810 | so does the rest of the loop |
| Conservation.Conservation | src/dlcon.cc:1400-1812 | over every run: each accepted job is in one of the three lists, or destroyed once for a reason; no connection means an empty pipeline, so the clear never loses a job |
| Pipelining.PrepareMatches | src/dlcon.cc:1596-1654 | sending requests keeps active jobs and unanswered requests in step |
| Pipelining.PostMatchesIff | src/dlcon.cc:1716-1810 | what follows ExchangeData loses step exactly if jobs go back to the queue while the connection is kept |
| Pipelining.AnswersMatch | src/dlcon.cc:1400-1812 | over every run without that, the i-th job in the pipeline is the one whose request is the i-th that is out |
| Pipelining.WrongAnswer | src/dlcon.cc:539-544 | a run that loses step: after an interim answer that says close, a job gets the answer meant for another |
| Pipelining.PrepareTakes | src/dlcon.cc:1467-1473 | a pass takes every job whose AddJob is done |
| Pipelining.NoneOverlooked | src/dlcon.cc:1020-1048 | over every interleaving in which SignalStop comes while no AddJob is under way: the agent has been told to stop for good, or no job handed over is overlooked |
| Pipelining.StopSticksIff | src/dlcon.cc:1085-1091 | a stop signal sticks, whatever happens afterwards, exactly if no AddJob is under way when it is given |
| Pipelining.StopEnds | src/dlcon.cc:1440-1466 | a signal that sticks ends the loop when it next comes back from ExchangeData, with no job left in queue or pipeline |
| Retries.ConnectRanks | src/dlcon.cc:1588-1592 | a failed connection lowers the measure by a host |
| Retries.LoseRanks | src/dlcon.cc:1734-1748 | an unannounced loss lowers it by a tolerated loss or a host |
| Retries.FailedRanks | src/dlcon.cc:1776-1810 | a broken job or mirror lowers it by a job or a host |
| Retries.StepRanks | src/dlcon.cc:1449-1810 | no step raises it but by new jobs, and each failure lowers it |
| Retries.BoundedRetries | src/dlcon.cc:1400-1812 | over every run: failed connections, unannounced losses, broken jobs and mirrors, redirections and finished jobs together are at most the measure at the start and what new jobs bring |
| DlAgent.SetupJobConfig | src/dlcon.cc:260-307 | the loop over the backends finds what the specification says |
| DlAgent.DropTaken | src/dlcon.cc:1792-1806 | the loop that drops collided jobs keeps and drops exactly those |
| DlAgent.CDlConn.AddJob | src/dlcon.cc:1020-1031 | AddJob without anybody in between: refused exactly on shutdown, else appended and announced |
| DlAgent.CDlConn.PurgeNext | src/dlcon.cc:1489-1500 | the loop that drops unconfigurable jobs leaves the others, set up, in order |
| DlAgent.CDlConn.FillPipeline | src/dlcon.cc:1596-1654 | the loop that sends requests moves jobs as specified |
| DlAgent.CDlConn.Pass | src/dlcon.cc:1449-1654 | one pass of the loop in place |
| DlAgent.CDlConn.AfterExchange | src/dlcon.cc:1681-1810 | the rest of the loop in place |
| DlAgent.CDlConn.WorkLoop | src/dlcon.cc:1449-1811 | the whole loop, with whatever the world does, goes through the states of the specification |
| Registry.KeptIff | src/acregistry.cc:94-98 | because of how the deadline is parenthesised, an item is kept for later only if its download started in the future |
| Registry.TFileItemRegistry.constructor | src/acregistry.cc:18-31 | an empty registry satisfies the invariant |
| Registry.TFileItemRegistry.Release | src/acregistry.cc:59-122 | the end of a holder keeps the invariant: counts equal holders, mapped items sit under their path with a user; only the last holder of an item that is its path's own unregisters it, and a displaced one never touches the map |
| Registry.TFileItemRegistry.Create | src/acregistry.cc:133-259 | Create keeps the invariant: it shares, registers, or displaces, and then the old item keeps its users but not its path. It displaces an item that has to make way exactly if link finds no file, or links it and unlink does anything but find no file; else nothing changes |
| Registry.TFileItemRegistry.CreateCustom | src/acregistry.cc:262-291 | so does the registration of a custom item; a conflict refuses it or hands it out uncounted |
| Registry.TFileItemRegistry.BackgroundCleanup | src/acregistry.cc:296-310 | so does the cleanup: entries up to the first that is not due lose their hold and no other holder is touched; the rest stays in order, followed only by items started in the future; no path gets another item |
| Registry.TFileItemRegistry.ReleaseAll | src/acregistry.cc:299-308 | the destructors of the released entries take back exactly their own shares |
| Registry.TFileItemRegistry.Displace | src/acregistry.cc:228-237 | a displaced item is no path's own, abandoned, and still held as often as before |
| Registry.TFileItemRegistry.Regnew | src/acregistry.cc:142-155 | a new item for a free path is registered with one user |
| Registry.TFileItemRegistry.Share | src/acregistry.cc:163-168 | a shared item has one user more |
| Registry.TFileItemRegistry.KeepForLater | src/acregistry.cc:100-105 | the queue takes over the last holder's share |
| Registry.TFileItemRegistry.LetGo | src/acregistry.cc:109-121 | the last holder stops the item and unregisters it if it is its path's own |
| EdScript.ConcatOfSplit | src/acngtool.cc:652-665 | splitting a file into lines and concatenating them gives the file back |
| EdScript.Patcher.Replace | src/acngtool.cc:477-491 | the overwrite loop with the insertion or erasure after it is the pure splice |
| EdScript.Patcher.PatchChunk | src/acngtool.cc:438-493 | a, c and d commands splice as specified; a bad command changes nothing; one that names the line behind the last is let through and reaches outside |
| EdScript.Patcher.RunScript | src/acngtool.cc:667-728 | the patch loop in place, for every script: the lines of the specification, failure, or an access outside of the data |
| EdScript.ReadLines | src/acngtool.cc:650-665 | the loop splits as specified |
| EdScript.PatchInPlace | src/acngtool.cc:643-738 | the whole tool on the contents of two files, whatever they are |
| EdHunks.StepEdits | src/acngtool.cc:475-491 | carrying out the topmost hunk leaves the meaning of the others |
| EdHunks.SequentialIsSimultaneous | src/acngtool.cc:717-727 | descending, non-overlapping hunks applied one after the other are all edits at once against the old line numbers |
| EdHunks.ParseRendered | src/acngtool.cc:442-470 | a written command is parsed as the command it was written for |
| EdHunks.RunHunk | src/acngtool.cc:472-727 | a written hunk, read back, is the splice it stands for exactly if the last line it names is there; it reaches outside exactly if that is the line behind the last, and fails else |
| EdHunks.BehindTheEnd | src/acngtool.cc:472-473 | deleting the second line of a file of one line does that |
| EdHunks.MendsIff | src/acngtool.cc:695-703 | the command that mends a full stop written as two reaches that line exactly if its hunk changes lines and brings one more than it takes; which line it reaches else |
| EdHunks.MendsTheNext | src/acngtool.cc:695-703 | changing the first of two lines to a full stop makes the second one, and leaves the first with two |
| EdHunks.PatchesAsMeant | src/acngtool.cc:643-738 | a file patched with the script of such edits is the file with all of them carried out at once |
| Expiration.EntryReadsBack | src/expiration.cc:463-466 | a printed line of the pending list reads back as the same file and time, exactly if the name holds no tab and the time is not in the future |
| Expiration.ListReadsBack | src/expiration.cc:929-953 | the printed list falls into the lines it was printed from |
| Expiration.Loaded | src/expiration.cc:922-953 | loading the list gives candidates their noted time back and changes no other |
| Expiration.ListRecords | src/expiration.cc:380-476 | over every sequence of runs the text file is a faithful record of since when each file has been uncovered |
| Expiration.RemovedIff | src/expiration.cc:440-453 | exactly which files a run removes |
| Expiration.RemovalIsSafe | src/expiration.cc:574-587 | over every sequence of runs: a removed file has a noted time older than the threshold, and every completed run since saw it present and unreferenced |
| Expiration.RemovalHappens | src/expiration.cc:440-449 | over every sequence of runs: a tab-free name that a run saw uncovered and free to be removed, as has every completed run since, is removed by the first completed run behind the threshold, if not by one before, unless the list was lost |
| Expiration.CoveredIff | src/expiration.cc:356-358 | a completed run that finds a file referenced does not remove it and resets its streak, except that a listed file whose version is kept stays listed |
| Expiration.StoppedRunsDoNotMatter | src/expiration.cc:377-404 | over every sequence of runs: the list, the times noted and so what is removed next are those without the runs that were stopped or only failed to open the list |
| ExpirationTask.KeyStandsFor | src/expiration.cc:867-885 | a path is put together again from its entry in the table, with or without its head suffix |
| ExpirationTask.KeyIsClean | src/expiration.cc:834-836 | names the scan admits are names the list can hold |
| ExpirationTask.Expirer.ProcessRegular | src/expiration.cc:798-891 | the scan enters exactly the admitted files with the current time |
| ExpirationTask.Expirer.BuildCacheFileList | src/expiration.cc:523-526 | the table after the scan holds exactly the admitted files |
| ExpirationTask.Expirer.HandleAll | src/expiration.cc:556-578 | after the index files it holds exactly those that no entry covers |
| ExpirationTask.Expirer.HandlePkgEntry | src/expiration.cc:266-297 | the loop over the places of a name removes exactly those found covered |
| ExpirationTask.Expirer.LoadPreviousData | src/expiration.cc:922-953 | the loop restamps the table as specified |
| ExpirationTask.Expirer.RemoveAndStoreStatus | src/expiration.cc:380-476 | the loop removes and writes back exactly what the specification says; if the list cannot be opened, not even anew, nothing is removed and the list is gone if it could be unlinked |
| ExpirationTask.Expirer.Action | src/expiration.cc:479-587 | the whole action, with its four stop points and every outcome of opening the list: list and files end as the specification says for a run with these files, entries and this end |
| Addresses.DedupIs | src/caddrinfo.cc:315-325 | each usable address once, none lost |
| Addresses.AlternateKeeps | src/caddrinfo.cc:347-356 | the alternation loses no address and keeps the order of each family |
| Addresses.TakeTurns | src/caddrinfo.cc:347-355 | families alternate, the preferred one first, while both last |
| Addresses.RefinedList | src/caddrinfo.cc:298-356 | the result list: duplicate-free, at most ten, wanted families only, complete if there is room, in order per family, alternating |
| Addresses.Deduplicate | src/caddrinfo.cc:301-326 | the loops that gather addresses do what the specification says |
| Addresses.Distribute | src/caddrinfo.cc:337-345 | so does the loop that sorts them into queues |
| Addresses.TakeInTurns | src/caddrinfo.cc:347-355 | the alternation loop ends, with the specified list |
| Joining.StepKeepsCallers | src/caddrinfo.cc:409-464 | no step loses a caller or calls one twice |
| Joining.StepInv | src/caddrinfo.cc:283-399 | every step keeps: the expiry queue is a permutation of the cached keys, cache bounded, keys cached and keys looked up are disjoint, no lookup is idle |
| Joining.FinishInv | src/caddrinfo.cc:358-392 | the end of a lookup, with the insertion into the cache, keeps it |
| Joining.EveryoneIsCalledOnce | src/caddrinfo.cc:125-139 | over every run, errors and shutdown included: every callback is still to come or was called exactly once, and all have been when nothing is left running |
| Joining.CancelledIsKept | src/caddrinfo.cc:213-218 | a cancelled lookup leaves an error in the cache whenever there is a cache |
| Joining.QueueSize | src/caddrinfo.cc:177 | the assertion in clean_dns_cache holds: queue and cache are of one size |
| DnsBase.DnsCache.RunCallbacks | src/caddrinfo.cc:125-139 | the loop calls everybody once, in order |
| DnsBase.DnsCache.CleanDnsCache | src/caddrinfo.cc:172-184 | the purge loop ends and leaves what the specification says; the queue never runs empty on it |
| DnsBase.DnsCache.RunPosted | src/caddrinfo.cc:412-461 | the posted closure answers, joins, or starts a lookup |
| DnsBase.DnsCache.Destroy | src/caddrinfo.cc:283-399 | the end of a lookup in place |
| DnsBase.DnsCache.RejectPending | src/caddrinfo.cc:467-474 | the loop rejects all who wait |
| ThreadPool.StepInv | src/tpool.cc:20-94 | every critical section keeps: counters count the threads, started and waiting jobs are the accepted ones in order, and a spare thread for each waiting job |
| ThreadPool.PoolWorks | src/tpool.cc:20-94 | over every interleaving: spare plus active are the live threads, accepted jobs start once in FIFO order, waiting work has a spare thread, and stop returns only when no thread is left |
| ThreadPool.StopEnds | src/tpool.cc:26-30 | after stop every turn ends a thread and starts nothing |
| ThreadPool.StopIsNotStuck | src/tpool.cc:87-94 | while stop waits, some thread has a turn |
| ThreadPool.NoThreadLimit | src/tpool.cc:58-61 | the limit counts active threads twice and spare ones not at all: there can be as many threads as one likes |
| ThreadPool.TPool.ScheduleAction | src/tpool.cc:55-85 | schedule in place |
| ThreadPool.TPool.NextWork | src/tpool.cc:26-40 | the first critical section of a thread in place |
| ThreadPool.TPool.AfterWork | src/tpool.cc:45-51 | the second one |
| CleanerTimers.StepInv | src/cleaner.cc:52-147 | every step keeps: what is due is never later than what is needed, and a sleeper that was not told wakes in time |
| CleanerTimers.NoLostTimer | src/cleaner.cc:52-147 | over every interleaving of snapshot, handlers, merge and ScheduleFor no timer is lost |
| CleanerTimers.StartedOk | src/cleaner.cc:128-135 | the first ScheduleFor starts a cleaner that satisfies it |
| CleanerTimers.CleanerThread.ScheduleFor | src/cleaner.cc:119-147 | a stamp is only lowered, and then the thread is notified |
| CleanerTimers.CleanerThread.TakeSnapshot | src/cleaner.cc:57-63 | the snapshot loop |
| CleanerTimers.CleanerThread.MergeBack | src/cleaner.cc:96-104 | the merge loop leaves the minimum of both and finds the earliest |
| Fish.StuckIff | src/astrop.cc:44-60 | a round of the search makes no progress exactly if it accepts again the prefix it has, before doubled separators; else the interval shrinks |
| Fish.DoubledSeparatorLoops | src/astrop.cc:44-60 | with a doubled separator the search can go on for ever |
| Fish.RoundKeeps | src/astrop.cc:44-60 | a round keeps: the lower bound is accepted, nothing above the upper bound is |
| Fish.FishLongestMatch | src/astrop.cc:33-61 | the search ends, and its longest accepted probe is the longest acceptable component prefix |
| StoredHead.StoreIsLines | src/httpdate.cc:204-225 | the stored text is its lines, each ended, and an empty one |
| StoredHead.ReadsBack | src/httpdate.cc:165-225 | reading what was stored gives the same length, and date and origin without the blanks around them |
| StoredHead.LengthLine | src/httpdate.cc:181-185 | a stored length reads back |
| StoredHead.ParseHeadFromStorage | src/httpdate.cc:165-202 | the loop over the lines reads what the specification says |

## Left out

- Sockets, select, TLS, timers of the network, compression, checksums, the file system: their results are
  parameters of the events and methods (partial counts, loss, success or failure).
- Date parsing and time zones: dates are tokens that are equal or not; longer stored dates go through an
  uninterpreted normaliser.
- SingleVersion.SingleVersionDelivery: assumes that the server reports true stamps and lengths and honours
  Range and If-Range, and that remote files with the same stamp, or both without one, are the same; and
  it leaves out the runs with a spoiling probe answer, which StaleProbe.AlwaysInvIff shows to fail.
- Restart.DeliveryAcrossRuns: assumes the same, and that no run takes such a refusal or leaves such a
  rewrite as Restart.RefusedIff and Restart.RunEndsWellIff show to be bad.
- Items that are head-only or not stored, request range limits, interrupted writes (the source adds -1), and
  MarkFaulty called by maintenance jobs: not part of the item model. Readers of displaced items likewise.
- StorageItem.FileItemWithStorage.Setup: not for head-only items, which end with their head in the source.
- StorageItem.FileItemWithStorage.DlFinish: not for items that are not stored, for which the source returns at once.
- StorageItem.FileItemWithStorage.DlAddData: does not model a write that is interrupted by a signal.
- Header parsing: the export of unknown fields, memory exhaustion, and a continuation line after a field
  that was just deleted (the source would read a null string; the model appends to an empty one).
- Decoder: the buffer never fills up, and storing the data never fails there; in the item it does, and
  WireToDisk.WireToReaders covers the calls up to that.
- DlJobs.DlJob.TakeAnswer: for a redirection with a negative Content-Length nothing is dropped, because the
  model of the stream does not hold the bytes in front of the read index.
- Sending: pass-through heads, maintenance jobs, a missing item, HTML error pages (their text is a parameter),
  HEAD requests in chunked mode.
- ClientJobs.ClientJob.CookResponseHeader: without pass-through heads and without the case of a missing item.
- ClientJobs.ClientJob.HandleSuddenError: without the page for a missing item.
- ClientJobs.ClientJob.SendData: without maintenance jobs and the case of a client that is already closed.
- Agent: SSL tunnels, speed limits and request texts; a proxy is a host requests may go over. Hosts are
  compared as a whole; the "any port" of pooled connections is not modelled. Global shutdown counts as the stop
  signal. Counting of the measure assumes that redirections lead to hosts of a given finite set.
- Pipelining.AnswersMatch: does not cover the connection handed back after redirections, whose outstanding
  answers the model forgets.
- Registry: the release of a holder is one critical section (the source reads the owner before it locks);
  path normalisation is the caller's; `items` handed out uncounted after a conflict are kept apart.
- Expiration: the verdict on a mentioned file (sizes, checksums, damage lists) is a parameter, purging by hand
  is not modelled, and which versions are kept is a parameter. The table is one map over directory and name
  instead of a map of maps, walked in any order. A list that can be opened can be written.
- ExpirationTask.Expirer.ProcessRegular: enters candidates only; the registration of index files is left out.
- Patch engine: an access outside of the data is an outcome (a patch without a last newline, with a NUL byte,
  or with a command on the line behind the last).
- DNS: weights of SRV records, the freshness of cache entries (the comparison is the other way round), and
  exceptions inside callbacks.
- Thread pool and cleaner: bad_alloc; what the handlers do. A critical section is one step.
- Fish.FishLongestMatch: requires no doubled separators, without which the source may not end; the order of
  the two tests at the upper bound is swapped (the source reads one character behind the end first).
- DlAgent.CDlConn.AddJob: is the undisturbed call; the interleaved one is the events Check, Append, Bump.
- URL escaping, base36, hex dumps of digests and plain getters: only easy members.
- HTML pages, configuration, logging, FUSE, import and mirroring, PatchOne's history loop.
