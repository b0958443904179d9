/** The control packages of the persistent connection
    (hertavilla/ws/package.py): seven dataclasses, the three module-level
    registries their class statements fill, and the protobuf conversion.
    The generated protobuf code is a parameter (`ProtoCodec`). */
module WsPackage {
  import opened Wrappers
  import opened Bytes
  import WsTypes

  /** A field value as the dataclasses hold it. Python does not check the
      annotations, so a field holds whatever the protobuf layer produced. */
  datatype Value = IntVal(i: int) | StrVal(s: string)

  /** Keyword arguments: the dict `MessageToDict` returns or `asdict` builds. */
  type FieldDict = map<string, Value>

  /** The package classes; `BasePackage` is `Package` itself. */
  datatype PackageClass =
    | BasePackage | LoginClass | LoginReplyClass | LogoutClass | LogoutReplyClass
    | HeartBeatClass | HeartBeatReplyClass | KickOffClass

  /** The generated protobuf message classes. */
  datatype Stub = PLogin | PLoginReply | PLogout | PLogoutReply | PHeartBeat | PHeartBeatReply | PKickOff

  /** The class variable `biz_type`. */
  function ClassBizType(c: PackageClass): WsTypes.BizType {
    match c
    case BasePackage => WsTypes.Unknown
    case LoginClass => WsTypes.PLogin
    case LoginReplyClass => WsTypes.PLogin
    case LogoutClass => WsTypes.PLogout
    case LogoutReplyClass => WsTypes.PLogout
    case HeartBeatClass => WsTypes.PHeartbeat
    case HeartBeatReplyClass => WsTypes.PHeartbeat
    case KickOffClass => WsTypes.PKickOff
  }

  /** One package instance. */
  datatype Package =
    | Base
    | Login(uid: Value, token: Value, platform: Value, appId: Value, deviceId: Value)
    | LoginReply(serverTimestamp: Value, connId: Value, code: Value, msg: Value)
    | Logout(uid: Value, platform: Value, appId: Value, deviceId: Value)
    | LogoutReply(connId: Value, code: Value, msg: Value)
    | HeartBeat(clientTimestamp: Value)
    | HeartBeatReply(serverTimestamp: Value, code: Value)
    | KickOff(code: Value, reason: Value)
  {
    function Class(): PackageClass {
      match this
      case Base => BasePackage
      case Login(_, _, _, _, _) => LoginClass
      case LoginReply(_, _, _, _) => LoginReplyClass
      case Logout(_, _, _, _) => LogoutClass
      case LogoutReply(_, _, _) => LogoutReplyClass
      case HeartBeat(_) => HeartBeatClass
      case HeartBeatReply(_, _) => HeartBeatReplyClass
      case KickOff(_, _) => KickOffClass
    }

    function BizType(): WsTypes.BizType {
      ClassBizType(Class())
    }
  }

  // ---------------------------------------------------------------------
  // Registration by `__init_subclass__`
  // ---------------------------------------------------------------------

  /** The keyword arguments of one `class X(Package, pb_stub=..., flag=...)`. */
  datatype ClassDecl = ClassDecl(cls: PackageClass, pbStub: Option<Stub>, flag: WsTypes.FlagType)

  /** The seven class statements, in the order the module defines them. */
  const DECLARATIONS: seq<ClassDecl> := [
    ClassDecl(LoginClass, Some(PLogin), WsTypes.Request),
    ClassDecl(LoginReplyClass, Some(PLoginReply), WsTypes.Response),
    ClassDecl(LogoutClass, Some(PLogout), WsTypes.Request),
    ClassDecl(LogoutReplyClass, Some(PLogoutReply), WsTypes.Response),
    ClassDecl(HeartBeatClass, Some(PHeartBeat), WsTypes.Request),
    ClassDecl(HeartBeatReplyClass, Some(PHeartBeatReply), WsTypes.Response),
    ClassDecl(KickOffClass, Some(PKickOff), WsTypes.Response)
  ]

  /** The three dicts: code to package class, code to request stub, code
      to response stub. */
  datatype Tables = Tables(pack: map<int, PackageClass>, request: map<int, Stub>, response: map<int, Stub>)

  /** What one class statement does to the dicts (`__init_subclass__`). */
  function Register(t: Tables, d: ClassDecl): (r: Tables)
    ensures r.pack == t.pack[ClassBizType(d.cls).Value() := d.cls]
    ensures d.pbStub.None? ==> r.request == t.request && r.response == t.response
    ensures d.pbStub.Some? && d.flag == WsTypes.Request ==>
      r.request == t.request[ClassBizType(d.cls).Value() := d.pbStub.value] && r.response == t.response
    ensures d.pbStub.Some? && d.flag == WsTypes.Response ==>
      r.response == t.response[ClassBizType(d.cls).Value() := d.pbStub.value] && r.request == t.request
  {
    var code := ClassBizType(d.cls).Value();
    var request := if d.pbStub.Some? && d.flag == WsTypes.Request then t.request[code := d.pbStub.value] else t.request;
    var response := if d.pbStub.Some? && d.flag != WsTypes.Request then t.response[code := d.pbStub.value] else t.response;
    Tables(t.pack[code := d.cls], request, response)
  }

  /** The dicts after a run of class statements, starting from `t`. */
  function RegisterAll(t: Tables, ds: seq<ClassDecl>): Tables
    decreases |ds|
  {
    if ds == [] then t else RegisterAll(Register(t, ds[0]), ds[1..])
  }

  /** The three registries once the module has been imported. */
  const BIZ_TO_PACK: map<int, PackageClass> :=
    map[7 := LoginReplyClass, 8 := LogoutReplyClass, 6 := HeartBeatReplyClass, 53 := KickOffClass]
  const BIZ_TO_PROTO_REQUEST: map<int, Stub> := map[7 := PLogin, 8 := PLogout, 6 := PHeartBeat]
  const BIZ_TO_PROTO_RESPONSE: map<int, Stub> :=
    map[7 := PLoginReply, 8 := PLogoutReply, 6 := PHeartBeatReply, 53 := PKickOff]

  /** The dicts after the first k class statements. */
  function Stage(k: nat): Tables
    requires k <= |DECLARATIONS|
  {
    match k
    case 0 => Tables(map[], map[], map[])
    case 1 => Tables(map[7 := LoginClass], map[7 := PLogin], map[])
    case 2 => Tables(map[7 := LoginReplyClass], map[7 := PLogin], map[7 := PLoginReply])
    case 3 => Tables(map[7 := LoginReplyClass, 8 := LogoutClass], map[7 := PLogin, 8 := PLogout], map[7 := PLoginReply])
    case 4 => Tables(map[7 := LoginReplyClass, 8 := LogoutReplyClass], map[7 := PLogin, 8 := PLogout],
                     map[7 := PLoginReply, 8 := PLogoutReply])
    case 5 => Tables(map[7 := LoginReplyClass, 8 := LogoutReplyClass, 6 := HeartBeatClass], BIZ_TO_PROTO_REQUEST,
                     map[7 := PLoginReply, 8 := PLogoutReply])
    case 6 => Tables(map[7 := LoginReplyClass, 8 := LogoutReplyClass, 6 := HeartBeatReplyClass], BIZ_TO_PROTO_REQUEST,
                     map[7 := PLoginReply, 8 := PLogoutReply, 6 := PHeartBeatReply])
    case 7 => Tables(BIZ_TO_PACK, BIZ_TO_PROTO_REQUEST, BIZ_TO_PROTO_RESPONSE)
  }

  /** Class statement k takes the dicts from one stage to the next. */
  lemma StageStep(k: nat)
    requires k < |DECLARATIONS|
    ensures Register(Stage(k), DECLARATIONS[k]) == Stage(k + 1)
  {
    if k == 0 { LoginStage(); }
    else if k == 1 { LoginReplyStage(); }
    else if k == 2 { LogoutStage(); }
    else if k == 3 { LogoutReplyStage(); }
    else if k == 4 { HeartBeatStage(); }
    else if k == 5 { HeartBeatReplyStage(); }
    else { KickOffStage(); }
  }

  lemma LoginStage() ensures Register(Stage(0), DECLARATIONS[0]) == Stage(1) { }
  lemma LoginReplyStage() ensures Register(Stage(1), DECLARATIONS[1]) == Stage(2) { }
  lemma LogoutStage() ensures Register(Stage(2), DECLARATIONS[2]) == Stage(3) { }
  lemma LogoutReplyStage() ensures Register(Stage(3), DECLARATIONS[3]) == Stage(4) { }
  lemma HeartBeatStage() ensures Register(Stage(4), DECLARATIONS[4]) == Stage(5) { }
  lemma HeartBeatReplyStage() ensures Register(Stage(5), DECLARATIONS[5]) == Stage(6) { }
  lemma KickOffStage() ensures Register(Stage(6), DECLARATIONS[6]) == Stage(7) { }

  /** The class statements from k on take stage k to the final dicts. */
  lemma {:induction false} StagesFrom(k: nat)
    requires k <= |DECLARATIONS|
    ensures RegisterAll(Stage(k), DECLARATIONS[k..]) == Stage(|DECLARATIONS|)
    decreases |DECLARATIONS| - k
  {
    if k < |DECLARATIONS| {
      StageStep(k);
      StagesFrom(k + 1);
      assert DECLARATIONS[k..][1..] == DECLARATIONS[k + 1..];
    }
  }

  /** Running the seven class statements from empty dicts: each reply class
      overwrites the request class with the same code in `BIZ_TO_PACK`,
      `KickOff` adds 53, the request stubs are Login, Logout and HeartBeat
      only, and the base `Package` (code 0) is never registered. */
  lemma ImportedTables()
    ensures RegisterAll(Tables(map[], map[], map[]), DECLARATIONS)
         == Tables(BIZ_TO_PACK, BIZ_TO_PROTO_REQUEST, BIZ_TO_PROTO_RESPONSE)
  {
    assert Stage(0) == Tables(map[], map[], map[]);
    assert Stage(|DECLARATIONS|) == Tables(BIZ_TO_PACK, BIZ_TO_PROTO_REQUEST, BIZ_TO_PROTO_RESPONSE);
    assert DECLARATIONS[0..] == DECLARATIONS;
    StagesFrom(0);
  }

  /** The module-level dicts `BIZ_TO_PACK`, `BIZ_TO_PROTO_REQUEST` and
      `BIZ_TO_PROTO_RESPONSE`, which every class statement updates. */
  class Registry {
    var bizToPack: map<int, PackageClass>
    var protoRequest: map<int, Stub>
    var protoResponse: map<int, Stub>

    function Contents(): Tables
      reads this
    {
      Tables(bizToPack, protoRequest, protoResponse)
    }

    /** The three dicts start empty. */
    constructor ()
      ensures Contents() == Tables(map[], map[], map[])
    {
      bizToPack, protoRequest, protoResponse := map[], map[], map[];
    }

    /** `Package.__init_subclass__`: the stub goes into the request or the
        response dict by direction, the class into `BIZ_TO_PACK`; a later
        class with the same code overwrites the earlier one. */
    method RegisterSubclass(d: ClassDecl)
      modifies this
      ensures Contents() == Register(old(Contents()), d)
    {
      var code := ClassBizType(d.cls).Value();
      if d.pbStub.Some? {
        if d.flag == WsTypes.Request {
          protoRequest := protoRequest[code := d.pbStub.value];
        } else {
          protoResponse := protoResponse[code := d.pbStub.value];
        }
      }
      bizToPack := bizToPack[code := d.cls];
    }
  }

  /** Importing the module: the seven class statements in order. */
  method ImportPackageModule() returns (reg: Registry)
    ensures fresh(reg)
    ensures reg.Contents() == RegisterAll(Tables(map[], map[], map[]), DECLARATIONS)
    ensures reg.Contents() == Tables(BIZ_TO_PACK, BIZ_TO_PROTO_REQUEST, BIZ_TO_PROTO_RESPONSE)
  {
    reg := new Registry();
    ghost var t0 := reg.Contents();
    reg.RegisterSubclass(DECLARATIONS[0]);
    reg.RegisterSubclass(DECLARATIONS[1]);
    reg.RegisterSubclass(DECLARATIONS[2]);
    reg.RegisterSubclass(DECLARATIONS[3]);
    reg.RegisterSubclass(DECLARATIONS[4]);
    reg.RegisterSubclass(DECLARATIONS[5]);
    reg.RegisterSubclass(DECLARATIONS[6]);
    ImportedTables();
  }

  /** The final registries as facts about codes: every decodable class
      carries its own code, and neither the base class nor `KickOff` can be
      encoded through the request dict. */
  lemma RegistryFacts()
    ensures forall code :: code in BIZ_TO_PACK ==> ClassBizType(BIZ_TO_PACK[code]).Value() == code
    ensures BIZ_TO_PACK.Keys == BIZ_TO_PROTO_RESPONSE.Keys
    ensures BIZ_TO_PROTO_REQUEST.Keys == BIZ_TO_PROTO_RESPONSE.Keys - {WsTypes.P_KICK_OFF}
    ensures ClassBizType(BasePackage).Value() !in BIZ_TO_PACK && ClassBizType(BasePackage).Value() !in BIZ_TO_PROTO_REQUEST
    ensures ClassBizType(BasePackage).Value() !in BIZ_TO_PROTO_RESPONSE
  {
  }

  // ---------------------------------------------------------------------
  // Dataclass fields, defaults and construction from keyword arguments
  // ---------------------------------------------------------------------

  /** The dataclass fields of a class in declaration order, with the
      defaults the declarations give. */
  function Fields(c: PackageClass): seq<(string, Option<Value>)> {
    match c
    case BasePackage => []
    case LoginClass => [("uid", None), ("token", None), ("platform", None), ("app_id", None), ("device_id", None)]
    case LoginReplyClass => [("server_timestamp", None), ("conn_id", None), ("code", Some(IntVal(0))), ("msg", Some(StrVal("")))]
    case LogoutClass => [("uid", None), ("platform", None), ("app_id", None), ("device_id", None)]
    case LogoutReplyClass => [("conn_id", None), ("code", Some(IntVal(0))), ("msg", Some(StrVal("")))]
    case HeartBeatClass => [("client_timestamp", None)]
    case HeartBeatReplyClass => [("server_timestamp", None), ("code", Some(IntVal(0)))]
    case KickOffClass => [("code", Some(IntVal(0))), ("reason", Some(StrVal("")))]
  }

  /** The names the generated `__init__` accepts as keyword arguments. */
  function FieldNames(c: PackageClass): set<string> {
    match c
    case BasePackage => {}
    case LoginClass => {"uid", "token", "platform", "app_id", "device_id"}
    case LoginReplyClass => {"server_timestamp", "conn_id", "code", "msg"}
    case LogoutClass => {"uid", "platform", "app_id", "device_id"}
    case LogoutReplyClass => {"conn_id", "code", "msg"}
    case HeartBeatClass => {"client_timestamp"}
    case HeartBeatReplyClass => {"server_timestamp", "code"}
    case KickOffClass => {"code", "reason"}
  }

  /** Why building or converting a package raised. */
  datatype PackageError =
    | NoStub                      // TypeError("Protobuf stub is not provided")
    | UnexpectedField             // TypeError from the dataclass __init__
    | MissingField(name: string)  // TypeError from the dataclass __init__
    | ProtoDecodeFailed           // FromString raised
    | ProtoEncodeFailed           // ParseDict raised

  /** `cls(**kwargs)` for field `name`: the argument, else the default. */
  function Arg(kwargs: FieldDict, name: string, default: Option<Value>): Option<Value> {
    if name in kwargs then Some(kwargs[name]) else default
  }

  /** The first field that neither an argument nor a default fills. */
  function FirstMissing(kwargs: FieldDict, fields: seq<(string, Option<Value>)>): (r: Option<string>)
    ensures r.None? <==> forall i :: 0 <= i < |fields| ==> Arg(kwargs, fields[i].0, fields[i].1).Some?
  {
    if fields == [] then None
    else if Arg(kwargs, fields[0].0, fields[0].1).None? then Some(fields[0].0)
    else FirstMissing(kwargs, fields[1..])
  }

  /** The dataclass constructor called with `**kwargs`. */
  function FromKwargs(c: PackageClass, kwargs: FieldDict): (r: Result<Package, PackageError>)
    ensures r.Success? ==> r.value.Class() == c
    ensures r.Success? <==> kwargs.Keys <= FieldNames(c)
                            && forall i :: 0 <= i < |Fields(c)| ==> Arg(kwargs, Fields(c)[i].0, Fields(c)[i].1).Some?
  {
    if !(kwargs.Keys <= FieldNames(c)) then
      Failure(UnexpectedField)
    else
      var fs := Fields(c);
      match FirstMissing(kwargs, fs)
      case Some(name) => Failure(MissingField(name))
      case None =>
        var v := (i: nat) requires i < |fs| => Arg(kwargs, fs[i].0, fs[i].1).value;
        Success(match c
          case BasePackage => Base
          case LoginClass => Login(v(0), v(1), v(2), v(3), v(4))
          case LoginReplyClass => LoginReply(v(0), v(1), v(2), v(3))
          case LogoutClass => Logout(v(0), v(1), v(2), v(3))
          case LogoutReplyClass => LogoutReply(v(0), v(1), v(2))
          case HeartBeatClass => HeartBeat(v(0))
          case HeartBeatReplyClass => HeartBeatReply(v(0), v(1))
          case KickOffClass => KickOff(v(0), v(1)))
  }

  /** `dataclasses.asdict`: field name to value (the class variable
      `biz_type` is not a field). */
  function AsDict(p: Package): (d: FieldDict)
    ensures d.Keys == FieldNames(p.Class())
  {
    match p
    case Base => map[]
    case Login(uid, token, platform, appId, deviceId) =>
      map["uid" := uid, "token" := token, "platform" := platform, "app_id" := appId, "device_id" := deviceId]
    case LoginReply(ts, connId, code, msg) =>
      map["server_timestamp" := ts, "conn_id" := connId, "code" := code, "msg" := msg]
    case Logout(uid, platform, appId, deviceId) =>
      map["uid" := uid, "platform" := platform, "app_id" := appId, "device_id" := deviceId]
    case LogoutReply(connId, code, msg) => map["conn_id" := connId, "code" := code, "msg" := msg]
    case HeartBeat(ts) => map["client_timestamp" := ts]
    case HeartBeatReply(ts, code) => map["server_timestamp" := ts, "code" := code]
    case KickOff(code, reason) => map["code" := code, "reason" := reason]
  }

  /** Rebuilding a package from its own `asdict` gives it back. */
  lemma FromKwargsAsDict(p: Package)
    ensures FromKwargs(p.Class(), AsDict(p)) == Success(p)
  {
    var d := AsDict(p);
    assert forall i :: 0 <= i < |Fields(p.Class())| ==> Fields(p.Class())[i].0 in d;
  }

  /** Fields the decoded message leaves out take the dataclass defaults:
      code 0 and an empty message for LoginReply. */
  lemma LoginReplyDefaults(kwargs: FieldDict)
    ensures var r := FromKwargs(LoginReplyClass, kwargs);
      r.Success? && "code" !in kwargs ==> r.value.code == IntVal(0)
    ensures var r := FromKwargs(LoginReplyClass, kwargs);
      r.Success? && "msg" !in kwargs ==> r.value.msg == StrVal("")
  {
  }

  /** The same defaults for LogoutReply. */
  lemma LogoutReplyDefaults(kwargs: FieldDict)
    ensures var r := FromKwargs(LogoutReplyClass, kwargs);
      r.Success? && "code" !in kwargs ==> r.value.code == IntVal(0)
    ensures var r := FromKwargs(LogoutReplyClass, kwargs);
      r.Success? && "msg" !in kwargs ==> r.value.msg == StrVal("")
  {
  }

  /** Code 0 by default for HeartBeatReply. */
  lemma HeartBeatReplyDefaults(kwargs: FieldDict)
    ensures var r := FromKwargs(HeartBeatReplyClass, kwargs);
      r.Success? && "code" !in kwargs ==> r.value.code == IntVal(0)
  {
  }

  /** KickOff has defaults for both its fields, so an empty message
      decodes to code 0 and an empty reason. */
  lemma KickOffDefaults()
    ensures FromKwargs(KickOffClass, map[]) == Success(KickOff(IntVal(0), StrVal("")))
  {
    assert FieldNames(KickOffClass) == {"code", "reason"} by {
      assert Fields(KickOffClass)[0].0 == "code" && Fields(KickOffClass)[1].0 == "reason";
    }
  }

  // ---------------------------------------------------------------------
  // Protobuf conversion
  // ---------------------------------------------------------------------

  /** The generated protobuf code: `stub().FromString(data)` followed by
      `MessageToDict(..., preserving_proto_field_name=True)`, and
      `ParseDict(d, stub()).SerializeToString()`. None stands for a raise. */
  datatype ProtoCodec = ProtoCodec(
    parse: (Stub, seq<byte>) -> Option<FieldDict>,
    serialize: (Stub, FieldDict) -> Option<seq<byte>>)

  /** `BIZ_TO_PROTO_RESPONSE.get(cls.biz_type) or stub`: the registered
      stub wins over the one the caller passes. */
  function ResponseStub(c: PackageClass, stub: Option<Stub>): Option<Stub> {
    var code := ClassBizType(c).Value();
    if code in BIZ_TO_PROTO_RESPONSE then Some(BIZ_TO_PROTO_RESPONSE[code]) else stub
  }

  /** `BIZ_TO_PROTO_REQUEST.get(self.biz_type) or stub`. */
  function RequestStub(c: PackageClass, stub: Option<Stub>): Option<Stub> {
    var code := ClassBizType(c).Value();
    if code in BIZ_TO_PROTO_REQUEST then Some(BIZ_TO_PROTO_REQUEST[code]) else stub
  }

  /** `Package.from_proto`. */
  function FromProto(c: PackageClass, data: seq<byte>, stub: Option<Stub>, codec: ProtoCodec): (r: Result<Package, PackageError>)
    ensures r == Failure(NoStub) <==> ClassBizType(c).Value() !in BIZ_TO_PROTO_RESPONSE && stub.None?
    ensures r.Success? ==> r.value.Class() == c
    ensures r.Success? ==> codec.parse(ResponseStub(c, stub).value, data).Some?
    ensures r.Success? ==> r == FromKwargs(c, codec.parse(ResponseStub(c, stub).value, data).value)
    ensures ResponseStub(c, stub).Some? && codec.parse(ResponseStub(c, stub).value, data).None? ==>
      r == Failure(ProtoDecodeFailed)
    ensures ResponseStub(c, stub).Some? && codec.parse(ResponseStub(c, stub).value, data).Some? ==>
      r == FromKwargs(c, codec.parse(ResponseStub(c, stub).value, data).value)
  {
    match ResponseStub(c, stub)
    case None => Failure(NoStub)
    case Some(s) =>
      match codec.parse(s, data)
      case None => Failure(ProtoDecodeFailed)
      case Some(kwargs) => FromKwargs(c, kwargs)
  }

  /** `Package.to_proto`. */
  function ToProto(p: Package, stub: Option<Stub>, codec: ProtoCodec): (r: Result<seq<byte>, PackageError>)
    ensures r == Failure(NoStub) <==> p.BizType().Value() !in BIZ_TO_PROTO_REQUEST && stub.None?
    ensures r.Success? ==> Some(r.value) == codec.serialize(RequestStub(p.Class(), stub).value, AsDict(p))
    ensures RequestStub(p.Class(), stub).Some? ==>
      r == match codec.serialize(RequestStub(p.Class(), stub).value, AsDict(p))
           case Some(b) => Success(b)
           case None => Failure(ProtoEncodeFailed)
  {
    match RequestStub(p.Class(), stub)
    case None => Failure(NoStub)
    case Some(s) =>
      match codec.serialize(s, AsDict(p))
      case None => Failure(ProtoEncodeFailed)
      case Some(bytes) => Success(bytes)
  }

  /** A registered stub takes precedence over the caller's in both
      directions: for a registered code the stub argument changes nothing. */
  lemma RegisteredStubWins(c: PackageClass, p: Package, data: seq<byte>, s1: Option<Stub>, s2: Option<Stub>, codec: ProtoCodec)
    ensures ClassBizType(c).Value() in BIZ_TO_PROTO_RESPONSE ==>
      FromProto(c, data, s1, codec) == FromProto(c, data, s2, codec)
    ensures p.BizType().Value() in BIZ_TO_PROTO_REQUEST ==>
      ToProto(p, s1, codec) == ToProto(p, s2, codec)
  {
  }

  /** Without a stub argument, exactly KickOff and the base class cannot be
      encoded, and exactly the base class cannot be decoded. */
  lemma MissingStubs(p: Package, c: PackageClass, data: seq<byte>, codec: ProtoCodec)
    ensures ToProto(p, None, codec) == Failure(NoStub) <==> p.KickOff? || p.Base?
    ensures FromProto(c, data, None, codec) == Failure(NoStub) <==> c == BasePackage
  {
  }
}
