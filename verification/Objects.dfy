/** The objects the handlers update: transfer entry, target, session, connection. */
module Objects {
  import opened Bytes
  import opened Lookup
  import opened Buffers
  import opened Negotiation
  import opened ParameterObject
  import opened Model

  /** iscsi_transfer_entry.h */
  class TransferEntry {
    const data: array<byte>
    var cdb: seq<byte>
    var total: int
    var offset: int
    var r2tSn: int
    var totalR2tSn: int
    var tag: int

    /** As the zeroed global holds it. */
    constructor ()
      ensures Valid() && fresh(data) && View() == Model.Entry(Zeros(MEMORY_SIZE), Zeros(CDB_LENGTH), 0, 0, 0, 0, 0)
    {
      data := new byte[MEMORY_SIZE](_ => 0);
      cdb := Zeros(CDB_LENGTH);
      total, offset, r2tSn, totalR2tSn, tag := 0, 0, 0, 0, 0;
      new;
      assert data[..] == Zeros(MEMORY_SIZE);
    }

    ghost predicate Valid()
      reads this
    {
      data.Length == MEMORY_SIZE && |cdb| == CDB_LENGTH && 0 <= total <= MEMORY_SIZE
    }

    ghost function View(): Model.Entry
      reads this, data
    {
      Model.Entry(data[..], cdb, total, offset, r2tSn, totalR2tSn, tag)
    }

    /** iscsi_transfer_entry_create: leaves the data, the offset and both R2T counters as they are. */
    method Create(cdb: seq<byte>, total: int, tag: int)
      requires Valid() && |cdb| == CDB_LENGTH && 0 <= total <= MEMORY_SIZE
      modifies this
      ensures Valid() && View() == old(View()).(cdb := cdb, total := total, tag := tag)
    {
      this.cdb := cdb;
      this.total := total;
      this.tag := tag;
    }

    /** The memcpy of iscsi_request_data_out_process. */
    method Store(at: nat, bytes: seq<byte>)
      requires Valid() && at + |bytes| <= MEMORY_SIZE
      modifies data
      ensures View() == old(View()).(data := Patch(old(data[..]), at, bytes))
    {
      Copy(data, 0, data.Length, at, bytes);
      assert data[..] == data[0..data.Length];
      assert old(data[..]) == old(data[0..data.Length]);
    }
  }

  /** iscsi_target.h; the device's answers are parameters. */
  class Target {
    const buffer: array<byte>
    var response: byte
    var status: byte
    var resid: int
    var sense: seq<byte>
    ghost var log: seq<Execution>

    /** As the zeroed global holds it. */
    constructor ()
      ensures Valid() && fresh(buffer) && View() == Model.Target(Zeros(MEMORY_SIZE), 0, 0, 0, [], [])
    {
      buffer := new byte[MEMORY_SIZE](_ => 0);
      response, status, resid, sense, log := 0, 0, 0, [], [];
      new;
      assert buffer[..] == Zeros(MEMORY_SIZE);
    }

    ghost predicate Valid()
      reads this
    {
      buffer.Length == MEMORY_SIZE && |sense| <= 32 && 0 <= resid <= MEMORY_SIZE
    }

    ghost function View(): Model.Target
      reads this, buffer
    {
      Model.Target(buffer[..], response, status, resid, sense, log)
    }

    /** iscsi_target_execute_scsi_command. */
    method Execute(cdb: seq<byte>, ghost transfer: Option<int>, reply: Reply)
      requires Valid() && reply.Valid()
      modifies this, buffer
      ensures Valid() && View() == Executed(old(View()), cdb, transfer, reply)
    {
      log := log + [Execution(cdb, buffer[..], transfer)];
      status, resid, sense := 0, 0, [];
      match reply
      case Failed =>
        response := 1;
      case Done(after, left, st, written) =>
        Copy(buffer, 0, buffer.Length, 0, after);
        assert buffer[..] == buffer[0..buffer.Length] == after;
        status, resid, sense := st, left, written;
        response := 0;
    }

    /** The memcpy of iscsi_session_execute_transfer_entry. */
    method Load(bytes: seq<byte>)
      requires Valid() && |bytes| <= MEMORY_SIZE
      modifies buffer
      ensures View() == old(View()).(buffer := Patch(old(buffer[..]), 0, bytes))
    {
      Copy(buffer, 0, buffer.Length, 0, bytes);
      assert buffer[..] == buffer[0..buffer.Length];
      assert old(buffer[..]) == old(buffer[0..buffer.Length]);
    }
  }

  /** iscsi_session.h; there is one session, ISCSI_DEFAULT_SESSION, and one target, ISCSI_DEFAULT_TARGET. */
  class Session {
    const target: Target
    const entry: TransferEntry
    var connections: int
    var maxConnections: int
    var tsih: int
    var expCmdSn: int
    var numberingStarted: bool
    var fullFeature: bool
    var discovery: bool
    var transferTag: int
    var hasTarget: bool

    /** The zeroed global ISCSI_DEFAULT_SESSION. */
    constructor ()
      ensures Valid() && fresh(target) && fresh(entry) && fresh(target.buffer) && fresh(entry.data)
      ensures View() == Init(DEFAULTS, []).session && target.View() == Init(DEFAULTS, []).target
    {
      target := new Target();
      entry := new TransferEntry();
      connections, maxConnections, tsih, expCmdSn, transferTag := 0, 0, 0, 0, 0;
      numberingStarted, fullFeature, discovery, hasTarget := false, false, false, false;
    }

    ghost predicate Valid()
      reads this, target, entry
    {
      target.Valid() && entry.Valid() && target.buffer != entry.data
    }

    ghost function View(): Model.Session
      reads this, entry, entry.data
    {
      Model.Session(connections, maxConnections, tsih, expCmdSn, numberingStarted, fullFeature, discovery,
                    transferTag, hasTarget, entry.View())
    }

    /** iscsi_session_create. */
    method Create()
      modifies this
      ensures View() == Created(old(View()))
    {
      connections := 0;
      maxConnections := 4;
      tsih := 1;
      expCmdSn := 0;
      transferTag := 0;
      hasTarget := true;
    }

    /** iscsi_session_next_transfer_tag. */
    method NextTransferTag() returns (tag: int)
      modifies this`transferTag
      ensures tag == transferTag == Advance(old(transferTag), 1)
    {
      transferTag := Advance(transferTag, 1);
      return transferTag;
    }

    /** iscsi_session_execute_transfer_entry. */
    method ExecuteTransferEntry(reply: Reply)
      requires Valid() && reply.Valid()
      modifies target, target.buffer
      ensures Valid() && target.View() == ExecutedEntry(old(target.View()), old(entry.View()), reply)
    {
      assert entry.data[..][..entry.total] == entry.data[..entry.total];
      target.Load(entry.data[..entry.total]);
      target.Execute(entry.cdb, Some(entry.tag), reply);
    }
  }

  /** iscsi_connection.h; `attached` says whether session_reference points to the session. */
  class Connection {
    const session: Session
    const receive: Buffer
    const response: Buffer
    const parameter: Parameter
    /** int_to_string's static buffer. */
    const digits: array<byte>
    var attached: bool
    var connectionId: int
    var statSn: int
    var expCmdSn: int

    /** iscsi_connection_create without a session; the parameters are whatever the allocation left. */
    constructor (left: Params)
      ensures Valid() && View() == Init(left, [])
    {
      session := new Session();
      receive := new Buffer();
      response := new Buffer();
      parameter := new Parameter(left);
      digits := new byte[20];
      attached, connectionId, statSn, expCmdSn := false, 0, 0, 0;
    }

    ghost predicate Distinct()
      reads this, session
    {
      && receive != response
      && response.data != receive.data && response.data != parameter.buffer && response.data != digits
      && response.data != session.entry.data && response.data != session.target.buffer
      && receive.data != parameter.buffer && receive.data != digits
      && receive.data != session.entry.data && receive.data != session.target.buffer
      && parameter.buffer != digits && parameter.buffer != session.entry.data
      && parameter.buffer != session.target.buffer
      && digits != session.entry.data && digits != session.target.buffer && digits.Length == 20
    }

    ghost predicate Valid()
      reads this, session, session.target, session.entry, receive, response, parameter
    {
      Distinct() && session.Valid() && receive.Valid() && response.Valid() && parameter.Valid()
    }

    ghost function ConnView(): Conn
      requires parameter.Valid()
      reads this, parameter, parameter.buffer
    {
      Conn(attached, connectionId, parameter.values, parameter.Text(), statSn, expCmdSn)
    }

    ghost function View(): State
      requires Valid()
      reads this, session, session.target, session.target.buffer, session.entry, session.entry.data,
            receive, response, response.data, parameter, parameter.buffer
    {
      State(ConnView(), session.View(), session.target.View(), response.Stream())
    }
  }
}
