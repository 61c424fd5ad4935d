/** The client job as an object: SendData is called again and again and changes the fields of
    the job in place. `file` stands for the bytes of the item's file. */
module ClientJobs {
  import opened Text
  import opened HeaderParser
  import opened ItemStatus
  import opened RemoteStatus
  import opened Sender

  class ClientJob {
    const req: Request
    var activity: Activity
    var sendbuf: string
    var reqRangeFrom: int
    var reqRangeTo: int
    var sendPos: nat
    var chunkEnd: nat
    var allDataCount: nat
    ghost var wire: string
    ghost var handed: string
    ghost var promised: int
    ghost var ok: bool

    ghost function State(): Job
      reads this
    {
      Job(activity, sendbuf, reqRangeFrom, reqRangeTo, sendPos, chunkEnd, allDataCount, wire, handed, promised, ok)
    }

    constructor (r: Request, from: int, to: int)
      ensures req == r && State() == NewJob(from, to)
    {
      req, activity, sendbuf, reqRangeFrom, reqRangeTo := r, NotStarted, "", from, to;
      sendPos, chunkEnd, allDataCount := 0, 0, 0;
      wire, handed, promised, ok := "", "", 0, false;
    }

    method ReturnStreamOk() returns (r: Result)
      modifies this
      ensures (State(), r) == CleanEnd(req, old(State()))
    {
      ok := true;
      if req.keepAlive.Keep? || (req.keepAlive.Unspecified? && req.http11) {
        activity := Finished;
        return RDone;
      }
      activity := DiscoAsap;
      return RDiscon;
    }

    method HandleSuddenError(io: Io) returns (r: Result)
      modifies this
      ensures (State(), r) == SuddenError(req, old(State()), io)
    {
      if allDataCount != 0 { // a response is under way, can only drop the client
        activity := DiscoAsap;
        return RDiscon;
      }
      var msg := "500 Remote or cache error";
      if io.code >= 500 {
        msg := IntText(io.code) + " " + (if io.msg == "" then "Unknown internal error" else io.msg);
      }
      sendbuf := req.page(msg, false);
      activity := SendBufNotFitem;
      return RAgain;
    }

    method CookResponseHeader(v: Item)
      modifies this
      ensures State() == Cook(req, old(State()), v)
    {
      hide IntText, PrintFields, StatusLine, ChunkedFields, RangeFields, FullFields, MetaFields;
      activity := SendingData;
      if IsRedirect(v.code) || MustNotHaveBody(v.code) {
        sendbuf := StatusLine(req, v.code, v.msg)
          + PrintFields((if IsRedirect(v.code) then [("Location", v.origin)] else []) + MetaFields(req));
        activity := SendBufNotFitem;
        return;
      }
      if v.code != 200 {
        sendbuf, activity := req.page(IntText(v.code) + " " + v.msg, false), SendBufNotFitem;
        return;
      }
      if req.notModified(v) {
        sendbuf, activity := req.page("304 Not Modified", true), SendBufNotFitem;
        return;
      }
      if v.contLen < 0 && v.status.DlReceiving? && !(reqRangeTo > 0 && v.size >= reqRangeTo) {
        activity := SendingChunkHeader;
        reqRangeTo := -1;
        reqRangeFrom := 0;
        sendbuf := StatusLine(req, v.code, v.msg) + PrintFields(ChunkedFields(req, v));
        return;
      }
      if v.contLen >= 0 && (reqRangeFrom >= v.contLen || reqRangeTo + 1 > v.contLen) {
        sendbuf, activity := req.page("416 Requested Range Not Satisfiable", false), SendBufNotFitem;
        return;
      }
      if reqRangeFrom >= 0 && v.size > reqRangeFrom && v.contLen > 0 {
        sendPos := reqRangeFrom;
        var cl := if reqRangeTo < 0 then v.contLen - reqRangeFrom else reqRangeTo + 1 - reqRangeFrom;
        sendbuf := StatusLine(req, 206, "Partial Content") + PrintFields(RangeFields(req, v, reqRangeFrom, reqRangeTo, cl));
        promised := cl;
        return;
      }
      reqRangeTo := -1;
      reqRangeFrom := 0;
      sendbuf := StatusLine(req, 200, "OK") + PrintFields(FullFields(req, v));
      promised := v.contLen;
    }

    /** fileitem::SendData: the kernel moves at most `limit` bytes from the file to the socket. */
    method Transfer(file: string, n: nat)
      requires sendPos + n <= |file|
      modifies this
      ensures State() == HandOut(old(State()), file, n)
    {
      ghost var bytes := file[sendPos..sendPos + n];
      wire, handed := wire + bytes, handed + bytes;
      sendPos, allDataCount := sendPos + n, allDataCount + n;
    }

    method SendFileData(file: string, io: Io) returns (r: Result)
      requires PossibleIo(req, file, State(), io)
      modifies this
      ensures (State(), r) == DataStep(req, file, old(State()), io)
    {
      hide SuddenError;
      if req.headOnly {
        r := ReturnStreamOk();
        return;
      }
      if !Sendable(io.view) {
        r := HandleSuddenError(io);
        return;
      }
      var bodySize := io.view.value.size;
      var limit := bodySize - sendPos;
      if reqRangeTo >= 0 { limit := Least(reqRangeTo + 1 - sendPos, limit); }
      if limit <= 0 { return RDiscon; }
      if !io.file.Sent? {
        activity := DiscoAsap;
        return RDiscon;
      }
      Transfer(file, Least(io.file.n, limit));
      if io.view.value.status.Complete? && sendPos == bodySize {
        r := ReturnStreamOk();
      } else if reqRangeTo >= 0 && sendPos >= reqRangeTo + 1 {
        r := ReturnStreamOk();
      } else {
        r := RAgain;
      }
    }

    method SendChunkHeader(file: string, io: Io) returns (r: Result)
      requires PossibleIo(req, file, State(), io)
      modifies this
      ensures (State(), r) == ChunkHeaderStep(req, file, old(State()), io)
    {
      hide SuddenError, HexText;
      if !Sendable(io.view) {
        r := HandleSuddenError(io);
        return;
      }
      var bodySize := io.view.value.size;
      if io.view.value.status.Complete? && sendPos == bodySize {
        sendbuf := sendbuf + "0\r\n\r\n";
        activity := Finished;
        return RAgain;
      }
      if !io.fdValid {
        r := HandleSuddenError(io);
        return;
      }
      chunkEnd := if bodySize < 0 then 0 else bodySize;
      sendbuf := sendbuf + HexText(bodySize - sendPos) + CRLF;
      activity := SendingChunkData;
      return RAgain;
    }

    method SendChunkData(file: string, io: Io) returns (r: Result)
      requires WellFormed(file, State()) && activity.SendingChunkData?
      modifies this
      ensures (State(), r) == ChunkDataStep(req, file, old(State()), io)
    {
      hide SuddenError;
      if !io.file.Sent? {
        r := HandleSuddenError(io);
        return;
      }
      Transfer(file, Least(io.file.n, chunkEnd - sendPos));
      if sendPos == chunkEnd {
        sendbuf := sendbuf + CRLF;
        activity := SendingChunkHeader;
      }
      return RAgain;
    }

    /** One call: flush the send buffer, then act by the state of the job. */
    method SendData(file: string, io: Io) returns (r: Result)
      requires WellFormed(file, State()) && PossibleIo(req, file, State(), io)
      modifies this
      ensures (State(), r) == Sender.SendData(req, file, old(State()), io)
    {
      hide DataStep, ChunkHeaderStep, ChunkDataStep, SuddenError, Cook;
      if sendbuf != "" {
        if io.net.WouldBlock? { return RAgain; }
        if io.net.Broken? {
          activity := DiscoAsap;
          return RDiscon;
        }
        var n := Least(io.net.n, |sendbuf|);
        wire := wire + sendbuf[..n];
        allDataCount := allDataCount + n;
        sendbuf := sendbuf[n..];
        if sendbuf != "" { return RAgain; }
      }
      match activity {
        case Finished => r := ReturnStreamOk();
        case NotStarted =>
          if !Sendable(io.view) {
            r := HandleSuddenError(io);
          } else {
            CookResponseHeader(io.view.value);
            r := RAgain;
          }
        case SendBufNotFitem => r := ReturnStreamOk();
        case DiscoAsap => r := RDiscon;
        case SendingData => r := SendFileData(file, io);
        case SendingChunkHeader => r := SendChunkHeader(file, io);
        case SendingChunkData => r := SendChunkData(file, io);
      }
    }
  }
}
