/** Login on the objects (request/login.c:79-294). */
module LoginHandler {
  import opened Bytes
  import opened Decimals
  import opened Lookup
  import opened Pdus
  import opened Negotiation
  import opened GeneratedText
  import opened ParameterObject
  import opened Model
  import opened Objects
  import opened CopiedReplies

  /** The request being processed is what the receive buffer starts with. */
  ghost predicate AtHead(c: Connection, req: seq<byte>)
    reads c, c.receive, c.receive.data
  {
    c.receive.Valid() && |req| <= c.receive.length && c.receive.data[..|req|] == req
  }

  lemma LoginDataInPlace(data: seq<byte>, req: seq<byte>)
    requires HEADER <= |req| <= |data| && data[..|req|] == req && HEADER + DataLength(req) <= |req|
    ensures LoginData(req) == data[HEADER..HEADER + Min(DataLength(req), PARAMETER_BUFFER_SIZE)]
  {
    var m := Min(DataLength(req), PARAMETER_BUFFER_SIZE);
    assert LoginData(req) == req[HEADER..HEADER + m];
    assert data[..|req|][HEADER..HEADER + m] == data[HEADER..HEADER + m];
  }

  /** iscsi_connection_parameter_create on the request's data segment, in the receive buffer. */
  method CreateParameters(c: Connection, req: seq<byte>)
    requires c.Valid() && AtHead(c, req) && |req| >= HEADER && HEADER + DataLength(req) <= |req|
    requires LoginText(LoginData(req))
    modifies c.parameter, c.parameter.buffer, c.receive.data
    ensures c.Valid() && c.receive.data[..] == old(c.receive.data[..])
    ensures c.View() == Reparametrised(old(c.View()), Negotiated(LoginData(req)), LoginData(req))
  {
    KeysPlain();
    UpdatedUpdatesByKeys();
    var n := DataLength(req);
    LoginDataInPlace(c.receive.data[..], req);
    c.parameter.Create(KEYS, Updated, c.receive.data, HEADER, n);
  }

  /** iscsi_connection_parameter_generate_operational_data. */
  method GenerateParameters(c: Connection)
    requires c.Valid() && WithinLimits(c.parameter.values)
    modifies c.parameter, c.parameter.buffer, c.digits
    ensures c.Valid()
    ensures var kvs := PrintedPairs(KEYS, old(c.parameter.values), 10);
            c.View() == Reparametrised(old(c.View()), Fold(Updated, old(c.parameter.values), kvs), Wire(kvs))
  {
    KeysPlain();
    KeysShort();
    UpdatedUpdatesByKeys();
    UpdatedUpdatesOwnFields();
    c.parameter.Generate(KEYS, Updated, c.digits);
  }

  method Requested(c: Connection, key: seq<byte>) returns (found: bool)
    requires c.Valid() && NUL !in key
    ensures found == Find(c.parameter.Text(), key).Some?
  {
    var at := ParameterGet(c.parameter.buffer[..c.parameter.length], key);
    return at.Some?;
  }

  /** The kind of session; its key is not checked for. */
  method DiscoveryRequested(c: Connection) returns (discovery: bool)
    requires c.Valid() && Find(c.parameter.Text(), SESSION_TYPE).Some?
    ensures discovery == IsDiscovery(c.parameter.Text())
  {
    var text := c.parameter.buffer[..c.parameter.length];
    assert NUL !in SESSION_TYPE;
    var at := ParameterGet(text, SESSION_TYPE);
    discovery := at.value <= |text| && CString(text, at.value) == DISCOVERY;
  }

  /** The branch of setup_session that creates the session. */
  method AttachNew(c: Connection, req: seq<byte>)
    requires c.Valid() && |req| >= HEADER
    modifies c`attached, c`connectionId, c.session
    ensures c.Valid() && c.View() == AttachedNew(old(c.View()), req)
  {
    c.session.Create();
    c.attached := true;
    c.session.expCmdSn := Int32At(req, 28);
    c.connectionId := Cid(req);
  }

  /** The branch of setup_session that joins a session. */
  method AttachOld(c: Connection, req: seq<byte>)
    requires c.Valid() && |req| >= HEADER
    modifies c`attached, c`connectionId
    ensures c.Valid() && c.View() == AttachedOld(old(c.View()), req)
  {
    c.attached := true;
    c.connectionId := Cid(req);
  }

  method SetKind(c: Connection, discovery: bool)
    requires c.Valid()
    modifies c.session
    ensures c.Valid() && c.View() == OfKind(old(c.View()), discovery)
  {
    c.session.discovery := discovery;
    if !discovery {
      c.session.hasTarget := true;
    }
  }

  /** A new session is a discovery session or needs a target. */
  method ChooseKind(c: Connection) returns (status: int)
    requires c.Valid() && Find(c.parameter.Text(), SESSION_TYPE).Some?
    modifies c.session
    ensures c.Valid() && (c.View(), status) == KindChosen(old(c.View()))
  {
    assert NUL !in TARGET_NAME;
    var discovery := DiscoveryRequested(c);
    var target := Requested(c, TARGET_NAME);
    if !discovery && !target {
      return INITIATOR_ERROR;
    }
    SetKind(c, discovery);
    return SUCCESS;
  }

  /** setup_session. */
  method SetUpSession(c: Connection, req: seq<byte>) returns (status: int)
    requires c.Valid() && |req| >= HEADER && KindReadable(c.parameter.Text(), req)
    modifies c`attached, c`connectionId, c.session
    ensures c.Valid() && (c.View(), status) == SetUp(old(c.View()), req)
  {
    assert NUL !in INITIATOR_NAME;
    var named := Requested(c, INITIATOR_NAME);
    if !named {
      return INITIATOR_ERROR;
    }
    if Tsih(req) == 0 {
      AttachNew(c, req);
      status := ChooseKind(c);
      return;
    }
    if c.session.connections >= c.session.maxConnections {
      return TOO_MANY_CONNECTION;
    }
    AttachOld(c, req);
    return SUCCESS;
  }

  method EnterFullFeature(c: Connection)
    requires c.Valid()
    modifies c.session`fullFeature
    ensures c.Valid() && c.View() == Entered(old(c.View()), true)
  {
    c.session.fullFeature := true;
  }

  /** The stage bits of a Login that is not to be continued: the phase it enters and the status it gets. */
  method ChangeStage(c: Connection, req: seq<byte>) returns (status: int)
    requires c.Valid() && |req| >= HEADER
    modifies c.session`fullFeature
    ensures c.Valid() && c.View() == Entered(old(c.View()), Completes(req)) && status == StageStatus(req)
  {
    status := SUCCESS;
    if Transit(req) {
      if Nsg(req) == 3 {
        EnterFullFeature(c);
      } else {
        status := INITIATOR_ERROR;
      }
    }
  }

  /** response_final_login. */
  method RespondFinalLogin(c: Connection, req: seq<byte>) returns (terminate: bool)
    requires c.Valid() && |req| >= HEADER && WithinLimits(c.parameter.values)
    modifies c`statSn, c.session`fullFeature, c.parameter, c.parameter.buffer, c.digits, c.response, c.response.data
    ensures c.Valid() && Outcome(c.View(), terminate) == FinalLogin(old(c.View()), req)
  {
    if Csg(req) == 0 {
      var status := ChangeStage(c, req);
      SendFinal(c, req, status, AUTH_METHOD_NONE);
    } else if Csg(req) == 1 {
      var status := ChangeStage(c, req);
      GenerateParameters(c);
      SendFinal(c, req, status, c.parameter.buffer[..c.parameter.length]);
    } else if Csg(req) == 3 {
      SendStatus(c, req, INITIATOR_ERROR);
    } else {
      return true;
    }
    return false;
  }

  /** iscsi_request_login_process. */
  method LoginProcess(c: Connection, req: seq<byte>) returns (terminate: bool)
    requires c.Valid() && AtHead(c, req) && |req| >= HEADER && HEADER + DataLength(req) <= |req|
    requires LoginReadable(c.attached, LoginData(req), req)
    modifies c`attached, c`connectionId, c`statSn, c.session, c.parameter, c.parameter.buffer, c.receive.data
    modifies c.digits, c.response, c.response.data
    ensures c.Valid() && c.receive.data[..] == old(c.receive.data[..])
    ensures Outcome(c.View(), terminate) == Login(old(c.View()), req)
  {
    ScanWithinLimits(LoginData(req), |LoginData(req)|);
    CreateParameters(c, req);
    terminate := AnswerLogin(c, req);
  }

  method AnswerLogin(c: Connection, req: seq<byte>) returns (terminate: bool)
    requires c.Valid() && |req| >= HEADER && WithinLimits(c.parameter.values)
    requires LoginReadable(c.attached, c.parameter.Text(), req)
    modifies c`attached, c`connectionId, c`statSn, c.session, c.parameter, c.parameter.buffer
    modifies c.digits, c.response, c.response.data
    ensures c.Valid() && Outcome(c.View(), terminate) == LoginAnswered(old(c.View()), req)
  {
    if Continue(req) {
      SendPartial(c, req);
      return false;
    }
    terminate := FinishLogin(c, req);
  }

  /** A Login that is not to be continued. */
  method FinishLogin(c: Connection, req: seq<byte>) returns (terminate: bool)
    requires c.Valid() && |req| >= HEADER && WithinLimits(c.parameter.values)
    requires LoginReadable(c.attached, c.parameter.Text(), req) && !Continue(req)
    modifies c`attached, c`connectionId, c`statSn, c.session, c.parameter, c.parameter.buffer
    modifies c.digits, c.response, c.response.data
    ensures c.Valid() && Outcome(c.View(), terminate) == LoginFinished(old(c.View()), req)
  {
    if !c.attached {
      var status := SetUpSession(c, req);
      if status != SUCCESS {
        SendStatus(c, req, status);
        return false;
      }
    }
    terminate := RespondFinalLogin(c, req);
  }
}
