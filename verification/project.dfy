/** The planning domain (core/project.py): IO events, waypoints, path segments
    and the project aggregate, their mapping to and from a JSON document, and
    the index-based operations on a project's ordered list of paths. */
module Domain {
  import opened Wrappers
  import opened Json
  import Text

  // ---------------------------------------------------------------------------
  // Data model
  // ---------------------------------------------------------------------------

  datatype IOType = DigitalOutput | DigitalInput | AnalogOutput | NetworkCommand

  /** The enumeration value each `IOType` member carries in a document. */
  function IOTypeValue(t: IOType): string {
    match t
    case DigitalOutput => "digital_output"
    case DigitalInput => "digital_input"
    case AnalogOutput => "analog_output"
    case NetworkCommand => "network_command"
  }

  /** `IOType(s)`: the member whose value is `s`; `None` where Python raises `ValueError`. */
  function ParseIOType(s: string): (r: Option<IOType>)
    ensures r.Some? ==> IOTypeValue(r.value) == s
  {
    if s == "digital_output" then Some(DigitalOutput)
    else if s == "digital_input" then Some(DigitalInput)
    else if s == "analog_output" then Some(AnalogOutput)
    else if s == "network_command" then Some(NetworkCommand)
    else None
  }

  /** A string names an `IOType` exactly when it is that member's value. */
  lemma ParseIOTypeIsInverse(s: string, t: IOType)
    ensures ParseIOType(s) == Some(t) <==> IOTypeValue(t) == s
  {
  }

  /** An IO or communication action fired at a waypoint; `payload` is carried through unread. */
  datatype IOEvent = IOEvent(
    ioType: IOType,
    identifier: string,
    value: Option<real>,
    payload: Option<map<string, Value>>)

  /** A waypoint: position in millimetres, orientation, and the events fired there in order. */
  datatype PathPoint = PathPoint(
    x: real, y: real, z: real,
    rx: real, ry: real, rz: real,
    ioEvents: seq<IOEvent>)

  /** A named, ordered sequence of waypoints with its motion parameters. */
  datatype PathSegment = PathSegment(
    name: string,
    points: seq<PathPoint>,
    speed: real,
    pointDensity: real,
    blendRadius: real,
    retractHeight: real,
    approachHeight: real,
    enabled: bool)

  /** The aggregate root; `metadata` is carried through unread. */
  datatype Project = Project(
    name: string,
    modelPath: Option<string>,
    modelTransform: seq<seq<real>>,
    paths: seq<PathSegment>,
    metadata: map<string, Value>)

  const IdentityTransform: seq<seq<real>> := [
    [1.0, 0.0, 0.0, 0.0],
    [0.0, 1.0, 0.0, 0.0],
    [0.0, 0.0, 1.0, 0.0],
    [0.0, 0.0, 0.0, 1.0]
  ]

  /** `PathSegment(name=name)`: a segment with every other field at its declared default. */
  function NewSegment(name: string): PathSegment {
    PathSegment(name, [], 100.0, 1.0, 0.0, 10.0, 10.0, true)
  }

  /** `Project()`: an empty project with the identity model transform. */
  const NewProject: Project := Project("New Project", None, IdentityTransform, [], map[])

  // ---------------------------------------------------------------------------
  // Document mapping (to_dict / from_dict)
  // ---------------------------------------------------------------------------

  /** Why `from_dict` could not build a value from a document. */
  datatype DocError =
    | NotAnObject                 // `.get` applied to something that is not a mapping
    | TypeMismatch(key: string)   // a present field holds a JSON value of the wrong kind
    | UnknownIoType(given: Value) // `IOType(...)` rejected the stored value

  /** Encodes every element in order. */
  function EncodeAll<T>(xs: seq<T>, encode: T -> Value): (r: seq<Value>)
    ensures |r| == |xs|
    ensures forall i :: 0 <= i < |xs| ==> r[i] == encode(xs[i])
  {
    if |xs| == 0 then [] else [encode(xs[0])] + EncodeAll(xs[1..], encode)
  }

  /** Decodes every element in order, failing at the first element that fails
      (a Python list comprehension stops at the first exception). */
  function DecodeAll<T>(vs: seq<Value>, decode: Value -> Result<T, DocError>): (r: Result<seq<T>, DocError>)
    ensures r.Ok? ==> |r.value| == |vs|
    ensures r.Ok? ==> forall i :: 0 <= i < |vs| ==> decode(vs[i]) == Ok(r.value[i])
    ensures r.Ok? <==> forall i :: 0 <= i < |vs| ==> decode(vs[i]).Ok?
  {
    if |vs| == 0 then Ok([])
    else
      match decode(vs[0])
      case Err(e) => Err(e)
      case Ok(x) =>
        match DecodeAll(vs[1..], decode)
        case Err(e) => Err(e)
        case Ok(rest) =>
          assert forall i :: 1 <= i < |vs| ==> vs[i] == vs[1..][i - 1];
          Ok([x] + rest)
  }

  /** Decoding what was encoded gives back the elements, in order, whenever
      each element survives its own round trip. */
  lemma {:induction false} DecodeEncodeAll<T>(xs: seq<T>, encode: T -> Value, decode: Value -> Result<T, DocError>)
    requires forall i :: 0 <= i < |xs| ==> decode(encode(xs[i])) == Ok(xs[i])
    ensures DecodeAll(EncodeAll(xs, encode), decode) == Ok(xs)
    decreases |xs|
  {
    if |xs| > 0 {
      DecodeEncodeAll(xs[1..], encode, decode);
      assert EncodeAll(xs, encode)[1..] == EncodeAll(xs[1..], encode);
      assert [xs[0]] + xs[1..] == xs;
    }
  }

  /** The JSON kinds a stored field's declared type admits. */
  datatype Kind = NumKind | StrKind | BoolKind | ObjKind

  predicate OfKind(v: Value, k: Kind) {
    match k
    case NumKind => v.Num?
    case StrKind => v.Str?
    case BoolKind => v.Bool?
    case ObjKind => v.Obj?
  }

  /** A stored field is acceptable when absent or of its declared kind. */
  predicate Fits(fields: map<string, Value>, key: string, k: Kind) {
    key !in fields || OfKind(fields[key], k)
  }

  /** An `Optional` field is acceptable when absent, `null` or of its declared kind. */
  predicate FitsOpt(fields: map<string, Value>, key: string, k: Kind) {
    key !in fields || fields[key].Null? || OfKind(fields[key], k)
  }

  // dict.get readers: a missing key yields the default; a present key must hold
  // the JSON kind the field's type names.

  function ReadNum(fields: map<string, Value>, key: string, default: real): (r: Result<real, DocError>)
    ensures r.Ok? <==> Fits(fields, key, NumKind)
    ensures r.Err? ==> r.error == TypeMismatch(key)
    ensures r.Ok? ==> r.value == if key in fields then fields[key].n else default
  {
    if key !in fields then Ok(default)
    else if fields[key].Num? then Ok(fields[key].n)
    else Err(TypeMismatch(key))
  }

  function ReadStr(fields: map<string, Value>, key: string, default: string): (r: Result<string, DocError>)
    ensures r.Ok? <==> Fits(fields, key, StrKind)
    ensures r.Err? ==> r.error == TypeMismatch(key)
    ensures r.Ok? ==> r.value == if key in fields then fields[key].s else default
  {
    if key !in fields then Ok(default)
    else if fields[key].Str? then Ok(fields[key].s)
    else Err(TypeMismatch(key))
  }

  function ReadBool(fields: map<string, Value>, key: string, default: bool): (r: Result<bool, DocError>)
    ensures r.Ok? <==> Fits(fields, key, BoolKind)
    ensures r.Err? ==> r.error == TypeMismatch(key)
    ensures r.Ok? ==> r.value == if key in fields then fields[key].b else default
  {
    if key !in fields then Ok(default)
    else if fields[key].Bool? then Ok(fields[key].b)
    else Err(TypeMismatch(key))
  }

  /** The elements `for x in data.get(key, [])` visits. A list yields its
      items and a string its characters. A mapping yields its keys, which are
      strings that no `from_dict` can read, so only an empty one gets through.
      Any other value is not iterable (`TypeError`). */
  function ReadList(fields: map<string, Value>, key: string): (r: Result<seq<Value>, DocError>)
    ensures key !in fields ==> r == Ok([])
    ensures key in fields && fields[key].Arr? ==> r == Ok(fields[key].items)
    ensures key in fields && fields[key].Str? ==>
      r.Ok? && |r.value| == |fields[key].s|
      && forall i :: 0 <= i < |r.value| ==> r.value[i] == Str([fields[key].s[i]])
    ensures key in fields && fields[key].Obj? ==>
      (r.Ok? <==> |fields[key].fields| == 0) && (r.Ok? ==> r.value == [])
    ensures key in fields && r.Err? && (fields[key].Null? || fields[key].Num? || fields[key].Bool?) ==> r.error == TypeMismatch(key)
  {
    if key !in fields then Ok([])
    else
      match fields[key]
      case Arr(items) => Ok(items)
      case Str(s) => Ok(seq(|s|, i requires 0 <= i < |s| => Str([s[i]])))
      case Obj(m) => if |m| == 0 then Ok([]) else Err(NotAnObject)
      case _ => Err(TypeMismatch(key))
  }

  function ReadObj(fields: map<string, Value>, key: string): (r: Result<map<string, Value>, DocError>)
    ensures r.Ok? <==> Fits(fields, key, ObjKind)
    ensures r.Err? ==> r.error == TypeMismatch(key)
    ensures r.Ok? ==> r.value == if key in fields then fields[key].fields else map[]
  {
    if key !in fields then Ok(map[])
    else if fields[key].Obj? then Ok(fields[key].fields)
    else Err(TypeMismatch(key))
  }

  /** An `Optional` field: absent and `null` both read as `None`. */
  function ReadOptNum(fields: map<string, Value>, key: string): (r: Result<Option<real>, DocError>)
    ensures r.Ok? <==> FitsOpt(fields, key, NumKind)
    ensures r.Err? ==> r.error == TypeMismatch(key)
    ensures r.Ok? ==> r.value == if key in fields && fields[key].Num? then Some(fields[key].n) else None
  {
    if key !in fields || fields[key].Null? then Ok(None)
    else if fields[key].Num? then Ok(Some(fields[key].n))
    else Err(TypeMismatch(key))
  }

  function ReadOptStr(fields: map<string, Value>, key: string): (r: Result<Option<string>, DocError>)
    ensures r.Ok? <==> FitsOpt(fields, key, StrKind)
    ensures r.Err? ==> r.error == TypeMismatch(key)
    ensures r.Ok? ==> r.value == if key in fields && fields[key].Str? then Some(fields[key].s) else None
  {
    if key !in fields || fields[key].Null? then Ok(None)
    else if fields[key].Str? then Ok(Some(fields[key].s))
    else Err(TypeMismatch(key))
  }

  function ReadOptObj(fields: map<string, Value>, key: string): (r: Result<Option<map<string, Value>>, DocError>)
    ensures r.Ok? <==> FitsOpt(fields, key, ObjKind)
    ensures r.Err? ==> r.error == TypeMismatch(key)
    ensures r.Ok? ==> r.value == if key in fields && fields[key].Obj? then Some(fields[key].fields) else None
  {
    if key !in fields || fields[key].Null? then Ok(None)
    else if fields[key].Obj? then Ok(Some(fields[key].fields))
    else Err(TypeMismatch(key))
  }

  /** Every element of an iterated list field decodes. */
  predicate AllDecode<T>(r: Result<seq<Value>, DocError>, decode: Value -> Result<T, DocError>) {
    r.Ok? && forall i :: 0 <= i < |r.value| ==> decode(r.value[i]).Ok?
  }

  function OptNumDoc(v: Option<real>): Value {
    match v
    case None => Null
    case Some(n) => Num(n)
  }

  function OptStrDoc(v: Option<string>): Value {
    match v
    case None => Null
    case Some(s) => Str(s)
  }

  function OptObjDoc(v: Option<map<string, Value>>): Value {
    match v
    case None => Null
    case Some(m) => Obj(m)
  }

  /** `IOType(data.get("io_type", DIGITAL_OUTPUT))`. */
  function ReadIOType(fields: map<string, Value>): (r: Result<IOType, DocError>)
    ensures "io_type" !in fields ==> r == Ok(DigitalOutput)
    ensures "io_type" in fields ==>
      (r.Ok? <==> fields["io_type"].Str? && ParseIOType(fields["io_type"].s).Some?)
    ensures r.Err? ==> r.error == UnknownIoType(fields["io_type"])
    ensures "io_type" in fields && r.Ok? ==> fields["io_type"] == Str(IOTypeValue(r.value))
  {
    if "io_type" !in fields then Ok(DigitalOutput)
    else
      var v := fields["io_type"];
      if v.Str? && ParseIOType(v.s).Some? then Ok(ParseIOType(v.s).value)
      else Err(UnknownIoType(v))
  }

  /** `IOEvent.to_dict`. */
  function EventToDoc(e: IOEvent): Value {
    Obj(map[
      "io_type" := Str(IOTypeValue(e.ioType)),
      "identifier" := Str(e.identifier),
      "value" := OptNumDoc(e.value),
      "payload" := OptObjDoc(e.payload)])
  }

  /** `IOEvent.from_dict`: succeeds on a mapping whose `io_type` names a member
      and whose other present fields have their declared kinds, and stores
      what it reads, a missing field taking its default. */
  function EventFromDoc(v: Value): (r: Result<IOEvent, DocError>)
    ensures !v.Obj? ==> r == Err(NotAnObject)
    ensures v.Obj? ==>
      (r.Ok? <==>
        && ("io_type" in v.fields ==> v.fields["io_type"].Str? && ParseIOType(v.fields["io_type"].s).Some?)
        && Fits(v.fields, "identifier", StrKind)
        && FitsOpt(v.fields, "value", NumKind)
        && FitsOpt(v.fields, "payload", ObjKind))
    ensures v.Obj? && "io_type" in v.fields && !(v.fields["io_type"].Str? && ParseIOType(v.fields["io_type"].s).Some?) ==>
      r == Err(UnknownIoType(v.fields["io_type"]))
    ensures v.Obj? && r.Ok? ==>
      var f := v.fields;
      && ("io_type" in f ==> f["io_type"] == Str(IOTypeValue(r.value.ioType)))
      && ("io_type" !in f ==> r.value.ioType == DigitalOutput)
      && r.value.identifier == (if "identifier" in f then f["identifier"].s else "")
      && r.value.value == (if "value" in f && f["value"].Num? then Some(f["value"].n) else None)
      && r.value.payload == (if "payload" in f && f["payload"].Obj? then Some(f["payload"].fields) else None)
  {
    match v
    case Obj(f) =>
      var t :- ReadIOType(f);
      var identifier :- ReadStr(f, "identifier", "");
      var value :- ReadOptNum(f, "value");
      var payload :- ReadOptObj(f, "payload");
      Ok(IOEvent(t, identifier, value, payload))
    case _ => Err(NotAnObject)
  }

  /** `PathPoint.to_dict`. */
  function PointToDoc(p: PathPoint): Value {
    Obj(map[
      "x" := Num(p.x), "y" := Num(p.y), "z" := Num(p.z),
      "rx" := Num(p.rx), "ry" := Num(p.ry), "rz" := Num(p.rz),
      "io_events" := Arr(EncodeAll(p.ioEvents, EventToDoc))])
  }

  /** `PathPoint.from_dict`: succeeds on a mapping whose coordinates are numbers
      and whose `io_events` iterate to event documents, and stores what it reads. */
  function PointFromDoc(v: Value): (r: Result<PathPoint, DocError>)
    ensures !v.Obj? ==> r == Err(NotAnObject)
    ensures v.Obj? ==>
      (r.Ok? <==>
        && Fits(v.fields, "x", NumKind) && Fits(v.fields, "y", NumKind) && Fits(v.fields, "z", NumKind)
        && Fits(v.fields, "rx", NumKind) && Fits(v.fields, "ry", NumKind) && Fits(v.fields, "rz", NumKind)
        && AllDecode(ReadList(v.fields, "io_events"), EventFromDoc))
    ensures v.Obj? && r.Ok? ==>
      var f := v.fields;
      && r.value.x == (if "x" in f then f["x"].n else 0.0)
      && r.value.y == (if "y" in f then f["y"].n else 0.0)
      && r.value.z == (if "z" in f then f["z"].n else 0.0)
      && r.value.rx == (if "rx" in f then f["rx"].n else 0.0)
      && r.value.ry == (if "ry" in f then f["ry"].n else 0.0)
      && r.value.rz == (if "rz" in f then f["rz"].n else 0.0)
    ensures v.Obj? && r.Ok? ==>
      var docs := ReadList(v.fields, "io_events").value;
      && |r.value.ioEvents| == |docs|
      && forall i :: 0 <= i < |docs| ==> EventFromDoc(docs[i]) == Ok(r.value.ioEvents[i])
  {
    match v
    case Obj(f) =>
      var x :- ReadNum(f, "x", 0.0);
      var y :- ReadNum(f, "y", 0.0);
      var z :- ReadNum(f, "z", 0.0);
      var rx :- ReadNum(f, "rx", 0.0);
      var ry :- ReadNum(f, "ry", 0.0);
      var rz :- ReadNum(f, "rz", 0.0);
      var docs :- ReadList(f, "io_events");
      var events :- DecodeAll(docs, EventFromDoc);
      Ok(PathPoint(x, y, z, rx, ry, rz, events))
    case _ => Err(NotAnObject)
  }

  /** `PathSegment.to_dict`. */
  function SegmentToDoc(s: PathSegment): Value {
    Obj(map[
      "name" := Str(s.name),
      "points" := Arr(EncodeAll(s.points, PointToDoc)),
      "speed" := Num(s.speed),
      "point_density" := Num(s.pointDensity),
      "blend_radius" := Num(s.blendRadius),
      "retract_height" := Num(s.retractHeight),
      "approach_height" := Num(s.approachHeight),
      "enabled" := Bool(s.enabled)])
  }

  /** `PathSegment.from_dict`: succeeds on a mapping whose present fields have
      their declared kinds and whose `points` iterate to waypoint documents,
      and stores what it reads, a missing field taking its default. */
  function SegmentFromDoc(v: Value): (r: Result<PathSegment, DocError>)
    ensures !v.Obj? ==> r == Err(NotAnObject)
    ensures v.Obj? ==>
      (r.Ok? <==>
        && Fits(v.fields, "name", StrKind)
        && AllDecode(ReadList(v.fields, "points"), PointFromDoc)
        && Fits(v.fields, "speed", NumKind) && Fits(v.fields, "point_density", NumKind)
        && Fits(v.fields, "blend_radius", NumKind) && Fits(v.fields, "retract_height", NumKind)
        && Fits(v.fields, "approach_height", NumKind) && Fits(v.fields, "enabled", BoolKind))
    ensures v.Obj? && r.Ok? ==>
      var f := v.fields;
      && r.value.name == (if "name" in f then f["name"].s else "Path")
      && r.value.speed == (if "speed" in f then f["speed"].n else 100.0)
      && r.value.pointDensity == (if "point_density" in f then f["point_density"].n else 1.0)
      && r.value.blendRadius == (if "blend_radius" in f then f["blend_radius"].n else 0.0)
      && r.value.retractHeight == (if "retract_height" in f then f["retract_height"].n else 10.0)
      && r.value.approachHeight == (if "approach_height" in f then f["approach_height"].n else 10.0)
      && r.value.enabled == (if "enabled" in f then f["enabled"].b else true)
    ensures v.Obj? && r.Ok? ==>
      var docs := ReadList(v.fields, "points").value;
      && |r.value.points| == |docs|
      && forall i :: 0 <= i < |docs| ==> PointFromDoc(docs[i]) == Ok(r.value.points[i])
  {
    match v
    case Obj(f) =>
      var name :- ReadStr(f, "name", "Path");
      var docs :- ReadList(f, "points");
      var points :- DecodeAll(docs, PointFromDoc);
      var speed :- ReadNum(f, "speed", 100.0);
      var density :- ReadNum(f, "point_density", 1.0);
      var blend :- ReadNum(f, "blend_radius", 0.0);
      var retract :- ReadNum(f, "retract_height", 10.0);
      var approach :- ReadNum(f, "approach_height", 10.0);
      var enabled :- ReadBool(f, "enabled", true);
      Ok(PathSegment(name, points, speed, density, blend, retract, approach, enabled))
    case _ => Err(NotAnObject)
  }

  function NumDoc(n: real): Value {
    Num(n)
  }

  function RowToDoc(row: seq<real>): Value {
    Arr(EncodeAll(row, NumDoc))
  }

  function TransformEntryFromDoc(v: Value): Result<real, DocError> {
    if v.Num? then Ok(v.n) else Err(TypeMismatch("model_transform"))
  }

  /** A transform row: a list of numbers, read in order. */
  function RowFromDoc(v: Value): (r: Result<seq<real>, DocError>)
    ensures r.Ok? <==> v.Arr? && forall i :: 0 <= i < |v.items| ==> v.items[i].Num?
    ensures r.Ok? ==> |r.value| == |v.items| && forall i :: 0 <= i < |v.items| ==> v.items[i] == Num(r.value[i])
  {
    if v.Arr? then DecodeAll(v.items, TransformEntryFromDoc) else Err(TypeMismatch("model_transform"))
  }

  /** `data.get("model_transform") or IDENTITY`: every falsy value, the missing
      key included, selects the identity. */
  function ReadTransform(fields: map<string, Value>): (r: Result<seq<seq<real>>, DocError>)
    ensures ("model_transform" !in fields || !Truthy(fields["model_transform"])) ==> r == Ok(IdentityTransform)
    ensures "model_transform" in fields ==> r == TransformFromDoc(fields["model_transform"])
  {
    if "model_transform" !in fields then Ok(IdentityTransform) else TransformFromDoc(fields["model_transform"])
  }

  function TransformFromDoc(v: Value): (r: Result<seq<seq<real>>, DocError>)
    ensures !Truthy(v) ==> r == Ok(IdentityTransform)
    ensures Truthy(v) ==> (r.Ok? <==> v.Arr? && forall i :: 0 <= i < |v.items| ==> RowFromDoc(v.items[i]).Ok?)
    ensures Truthy(v) && r.Ok? ==>
      |r.value| == |v.items| && forall i :: 0 <= i < |v.items| ==> RowFromDoc(v.items[i]) == Ok(r.value[i])
  {
    if !Truthy(v) then Ok(IdentityTransform)
    else if v.Arr? then DecodeAll(v.items, RowFromDoc)
    else Err(TypeMismatch("model_transform"))
  }

  /** `Project.to_dict`. */
  function ProjectToDoc(p: Project): Value {
    Obj(map[
      "name" := Str(p.name),
      "model_path" := OptStrDoc(p.modelPath),
      "model_transform" := Arr(EncodeAll(p.modelTransform, RowToDoc)),
      "paths" := Arr(EncodeAll(p.paths, SegmentToDoc)),
      "metadata" := Obj(p.metadata)])
  }

  /** `Project.from_dict`: succeeds on a mapping whose present fields have their
      declared kinds, whose transform reads and whose `paths` iterate to segment
      documents, and stores what it reads, a missing field taking its default. */
  function ProjectFromDoc(v: Value): (r: Result<Project, DocError>)
    ensures !v.Obj? ==> r == Err(NotAnObject)
    ensures v.Obj? ==>
      (r.Ok? <==>
        && Fits(v.fields, "name", StrKind)
        && FitsOpt(v.fields, "model_path", StrKind)
        && ReadTransform(v.fields).Ok?
        && AllDecode(ReadList(v.fields, "paths"), SegmentFromDoc)
        && Fits(v.fields, "metadata", ObjKind))
    ensures v.Obj? && r.Ok? ==>
      var f := v.fields;
      && r.value.name == (if "name" in f then f["name"].s else "New Project")
      && r.value.modelPath == (if "model_path" in f && f["model_path"].Str? then Some(f["model_path"].s) else None)
      && r.value.modelTransform == ReadTransform(f).value
      && r.value.metadata == (if "metadata" in f then f["metadata"].fields else map[])
    ensures v.Obj? && r.Ok? ==>
      var docs := ReadList(v.fields, "paths").value;
      && |r.value.paths| == |docs|
      && forall i :: 0 <= i < |docs| ==> SegmentFromDoc(docs[i]) == Ok(r.value.paths[i])
  {
    match v
    case Obj(f) =>
      var name :- ReadStr(f, "name", "New Project");
      var modelPath :- ReadOptStr(f, "model_path");
      var transform :- ReadTransform(f);
      var docs :- ReadList(f, "paths");
      var paths :- DecodeAll(docs, SegmentFromDoc);
      var metadata :- ReadObj(f, "metadata");
      Ok(Project(name, modelPath, transform, paths, metadata))
    case _ => Err(NotAnObject)
  }

  // ---------------------------------------------------------------------------
  // Document shapes
  // ---------------------------------------------------------------------------

  /** `IOEvent.to_dict` is a mapping of exactly the four fields, the type
      written as its enumeration value. */
  lemma EventDocKeys(e: IOEvent)
    ensures EventToDoc(e).Obj?
    ensures EventToDoc(e).fields.Keys == {"io_type", "identifier", "value", "payload"}
    ensures EventToDoc(e).fields["io_type"] == Str(IOTypeValue(e.ioType))
  {
  }

  /** `PathPoint.to_dict` is a mapping of exactly the seven fields, one event
      document per event. */
  lemma PointDocKeys(p: PathPoint)
    ensures PointToDoc(p).Obj?
    ensures PointToDoc(p).fields.Keys == {"x", "y", "z", "rx", "ry", "rz", "io_events"}
    ensures PointToDoc(p).fields["io_events"] == Arr(EncodeAll(p.ioEvents, EventToDoc))
  {
  }

  /** `PathSegment.to_dict` is a mapping of exactly the eight fields, one
      waypoint document per waypoint. */
  lemma SegmentDocKeys(s: PathSegment)
    ensures SegmentToDoc(s).Obj?
    ensures SegmentToDoc(s).fields.Keys ==
      {"name", "points", "speed", "point_density", "blend_radius", "retract_height", "approach_height", "enabled"}
    ensures SegmentToDoc(s).fields["points"] == Arr(EncodeAll(s.points, PointToDoc))
  {
  }

  // ---------------------------------------------------------------------------
  // Round trips
  // ---------------------------------------------------------------------------

  lemma EventRoundTrip(e: IOEvent)
    ensures EventFromDoc(EventToDoc(e)) == Ok(e)
  {
    var f := EventToDoc(e).fields;
    assert ReadStr(f, "identifier", "") == Ok(e.identifier);
    assert ParseIOType(IOTypeValue(e.ioType)) == Some(e.ioType);
    assert ReadIOType(f) == Ok(e.ioType);
    assert ReadOptNum(f, "value") == Ok(e.value);
    assert ReadOptObj(f, "payload") == Ok(e.payload);
  }

  /** A waypoint survives the round trip, its events kept in order. */
  lemma PointRoundTrip(p: PathPoint)
    ensures PointFromDoc(PointToDoc(p)) == Ok(p)
  {
    PointFieldsRead(p);
    forall i | 0 <= i < |p.ioEvents|
      ensures EventFromDoc(EventToDoc(p.ioEvents[i])) == Ok(p.ioEvents[i])
    {
      EventRoundTrip(p.ioEvents[i]);
    }
    DecodeEncodeAll(p.ioEvents, EventToDoc, EventFromDoc);
  }

  /** What each reader finds in the document of a waypoint. */
  lemma PointFieldsRead(p: PathPoint)
    ensures
      var f := PointToDoc(p).fields;
      && ReadNum(f, "x", 0.0) == Ok(p.x)
      && ReadNum(f, "y", 0.0) == Ok(p.y)
      && ReadNum(f, "z", 0.0) == Ok(p.z)
      && ReadNum(f, "rx", 0.0) == Ok(p.rx)
      && ReadNum(f, "ry", 0.0) == Ok(p.ry)
      && ReadNum(f, "rz", 0.0) == Ok(p.rz)
      && ReadList(f, "io_events") == Ok(EncodeAll(p.ioEvents, EventToDoc))
  {
  }

  /** A segment survives the round trip, its waypoints kept in order. */
  lemma SegmentRoundTrip(s: PathSegment)
    ensures SegmentFromDoc(SegmentToDoc(s)) == Ok(s)
  {
    SegmentFieldsRead(s);
    PointsRoundTrip(s.points);
  }

  lemma PointsRoundTrip(points: seq<PathPoint>)
    ensures DecodeAll(EncodeAll(points, PointToDoc), PointFromDoc) == Ok(points)
  {
    forall i | 0 <= i < |points|
      ensures PointFromDoc(PointToDoc(points[i])) == Ok(points[i])
    {
      PointRoundTrip(points[i]);
    }
    DecodeEncodeAll(points, PointToDoc, PointFromDoc);
  }

  /** What each reader finds in the document of a segment. */
  lemma SegmentFieldsRead(s: PathSegment)
    ensures
      var f := SegmentToDoc(s).fields;
      && ReadStr(f, "name", "Path") == Ok(s.name)
      && ReadList(f, "points") == Ok(EncodeAll(s.points, PointToDoc))
      && ReadNum(f, "speed", 100.0) == Ok(s.speed)
      && ReadNum(f, "point_density", 1.0) == Ok(s.pointDensity)
      && ReadNum(f, "blend_radius", 0.0) == Ok(s.blendRadius)
      && ReadNum(f, "retract_height", 10.0) == Ok(s.retractHeight)
      && ReadNum(f, "approach_height", 10.0) == Ok(s.approachHeight)
      && ReadBool(f, "enabled", true) == Ok(s.enabled)
  {
    var f := SegmentToDoc(s).fields;
    assert "points" in f && f["points"] == Arr(EncodeAll(s.points, PointToDoc));
  }

  lemma RowRoundTrip(row: seq<real>)
    ensures RowFromDoc(RowToDoc(row)) == Ok(row)
  {
    DecodeEncodeAll(row, NumDoc, TransformEntryFromDoc);
  }

  /** A non-empty transform survives the round trip row by row. */
  lemma TransformRoundTrip(m: seq<seq<real>>)
    requires |m| > 0
    ensures TransformFromDoc(Arr(EncodeAll(m, RowToDoc))) == Ok(m)
  {
    forall i | 0 <= i < |m|
      ensures RowFromDoc(RowToDoc(m[i])) == Ok(m[i])
    {
      RowRoundTrip(m[i]);
    }
    DecodeEncodeAll(m, RowToDoc, RowFromDoc);
    assert Truthy(Arr(EncodeAll(m, RowToDoc)));
  }

  /** What a project looks like after a round trip: an empty transform is
      falsy in the document and comes back as the identity. */
  function RoundTripped(p: Project): Project {
    if |p.modelTransform| == 0 then p.(modelTransform := IdentityTransform) else p
  }

  lemma ProjectRoundTrip(p: Project)
    ensures ProjectFromDoc(ProjectToDoc(p)) == Ok(RoundTripped(p))
  {
    ProjectFieldsRead(p);
    PathsRoundTrip(p.paths);
  }

  /** What each reader finds in the document of a project. */
  lemma ProjectFieldsRead(p: Project)
    ensures
      var f := ProjectToDoc(p).fields;
      && ReadStr(f, "name", "New Project") == Ok(p.name)
      && ReadOptStr(f, "model_path") == Ok(p.modelPath)
      && ReadTransform(f) == Ok(RoundTripped(p).modelTransform)
      && ReadList(f, "paths") == Ok(EncodeAll(p.paths, SegmentToDoc))
      && ReadObj(f, "metadata") == Ok(p.metadata)
  {
    TransformFieldRead(p);
  }

  /** The transform field reads back as the transform, an empty one as the identity. */
  lemma TransformFieldRead(p: Project)
    ensures ReadTransform(ProjectToDoc(p).fields) == Ok(RoundTripped(p).modelTransform)
  {
    var v := ProjectToDoc(p).fields["model_transform"];
    assert v == Arr(EncodeAll(p.modelTransform, RowToDoc));
    if |p.modelTransform| > 0 {
      TransformRoundTrip(p.modelTransform);
    } else {
      assert !Truthy(v);
    }
  }

  lemma PathsRoundTrip(paths: seq<PathSegment>)
    ensures DecodeAll(EncodeAll(paths, SegmentToDoc), SegmentFromDoc) == Ok(paths)
  {
    forall i | 0 <= i < |paths|
      ensures SegmentFromDoc(SegmentToDoc(paths[i])) == Ok(paths[i])
    {
      SegmentRoundTrip(paths[i]);
    }
    DecodeEncodeAll(paths, SegmentToDoc, SegmentFromDoc);
  }

  /** A project comes back unchanged exactly when its transform is non-empty. */
  lemma ProjectRoundTripExact(p: Project)
    ensures ProjectFromDoc(ProjectToDoc(p)) == Ok(p) <==> |p.modelTransform| > 0
  {
    ProjectRoundTrip(p);
  }

  /** The document defaults: an empty mapping yields the constructors' defaults. */
  lemma EmptyDocumentDefaults()
    ensures SegmentFromDoc(Obj(map[])) == Ok(NewSegment("Path"))
    ensures PointFromDoc(Obj(map[])) == Ok(PathPoint(0.0, 0.0, 0.0, 0.0, 0.0, 0.0, []))
    ensures EventFromDoc(Obj(map[])) == Ok(IOEvent(DigitalOutput, "", None, None))
    ensures ProjectFromDoc(Obj(map[])) == Ok(NewProject)
  {
  }

  // ---------------------------------------------------------------------------
  // Index-based operations on `paths`
  // ---------------------------------------------------------------------------

  /** The `ValueError` raised for an index outside the list. */
  datatype IndexError = OutOfRange(index: int)

  /** The position Python's `xs[i]` denotes in a list of length `n`, if any:
      `i` itself, or `i` counted back from the end. */
  function PyIndex(i: int, n: nat): (r: Option<nat>)
    ensures r.Some? <==> -(n as int) <= i < n
    ensures r.Some? ==> r.value < n && (r.value == i || r.value == n + i)
  {
    if 0 <= i < n then Some(i) else if -(n as int) <= i < 0 then Some(n + i) else None
  }

  /** The position `list.insert(j, x)` puts `x` at in a list of length `n`:
      `j` counted like an index, then clamped to the list. */
  function PyInsertPosition(j: int, n: nat): (k: nat)
    ensures k <= n
    ensures 0 <= j <= n ==> k == j
    ensures -(n as int) <= j < 0 ==> k == n + j
    ensures j > n ==> k == n
    ensures j < -(n as int) ==> k == 0
  {
    if j < 0 then (if j + n < 0 then 0 else j + n) else (if j > n then n else j)
  }

  /** `xs` with `x` inserted at position `k`. */
  function InsertAt<T>(xs: seq<T>, k: nat, x: T): (r: seq<T>)
    requires k <= |xs|
    ensures |r| == |xs| + 1 && r[k] == x
    ensures forall j :: 0 <= j < k ==> r[j] == xs[j]
    ensures forall j :: k < j < |r| ==> r[j] == xs[j - 1]
  {
    xs[..k] + [x] + xs[k..]
  }

  /** `xs` without its element at position `k`. */
  function DeleteAt<T>(xs: seq<T>, k: nat): (r: seq<T>)
    requires k < |xs|
    ensures |r| == |xs| - 1
    ensures forall j :: 0 <= j < k ==> r[j] == xs[j]
    ensures forall j :: k <= j < |r| ==> r[j] == xs[j + 1]
  {
    xs[..k] + xs[k + 1..]
  }

  /** Deleting what was just inserted gives the list back. */
  lemma DeleteInsert<T>(xs: seq<T>, k: nat, x: T)
    requires k <= |xs|
    ensures DeleteAt(InsertAt(xs, k, x), k) == xs
  {
    var r := DeleteAt(InsertAt(xs, k, x), k);
    assert forall j :: 0 <= j < |xs| ==> r[j] == xs[j];
  }

  function EnsurePath(p: Project, index: int): (r: Result<PathSegment, IndexError>)
    ensures r.Ok? <==> -|p.paths| <= index < |p.paths|
    ensures r.Err? ==> r.error == OutOfRange(index)
    ensures r.Ok? && index >= 0 ==> r.value == p.paths[index]
    ensures r.Ok? && index < 0 ==> r.value == p.paths[|p.paths| + index]
  {
    match PyIndex(index, |p.paths|)
    case Some(k) => Ok(p.paths[k])
    case None => Err(OutOfRange(index))
  }

  /** `add_path(segment)`: appends the given segment, or a default one named
      after the new length, and returns the appended segment. */
  function AddPath(p: Project, segment: Option<PathSegment>): (r: (Project, PathSegment))
    ensures |r.0.paths| == |p.paths| + 1
    ensures forall j :: 0 <= j < |p.paths| ==> r.0.paths[j] == p.paths[j]
    ensures r.0.paths[|p.paths|] == r.1
    ensures segment.Some? ==> r.1 == segment.value
    ensures segment.None? ==> r.1 == NewSegment("Path " + Text.NatToString(|p.paths| + 1))
    ensures r.0.(paths := p.paths) == p
  {
    var s := segment.GetOr(NewSegment("Path " + Text.NatToString(|p.paths| + 1)));
    (p.(paths := p.paths + [s]), s)
  }

  /** Default names given by successive `add_path()` calls never repeat. */
  lemma DefaultNamesDistinct(p: Project)
    ensures AddPath(p, None).1.name != AddPath(AddPath(p, None).0, None).1.name
  {
    var n := |p.paths|;
    if "Path " + Text.NatToString(n + 1) == "Path " + Text.NatToString(n + 2) {
      assert Text.NatToString(n + 1) == ("Path " + Text.NatToString(n + 1))[5..];
      Text.NatToStringInjective(n + 1, n + 2);
    }
  }

  /** `remove_path(index)`: bounds-checked, then removes exactly that element. */
  function RemovePath(p: Project, index: int): (r: Result<Project, IndexError>)
    ensures r.Ok? <==> -|p.paths| <= index < |p.paths|
    ensures r.Err? ==> r.error == OutOfRange(index)
    ensures r.Ok? ==> r.value == p.(paths := DeleteAt(p.paths, if index >= 0 then index else |p.paths| + index))
  {
    var _ :- EnsurePath(p, index);
    var k := PyIndex(index, |p.paths|).value;
    Ok(p.(paths := DeleteAt(p.paths, k)))
  }

  /** The copy `clone_path` makes: `from_dict(to_dict(s))` renamed. The pass
      through the document gives back `s` itself (`SegmentRoundTrip`), so the
      copy differs from its source in the name alone. */
  function CloneOf(s: PathSegment): (r: PathSegment)
    ensures r.name == s.name + " Copy"
    ensures r.(name := s.name) == s
  {
    s.(name := s.name + " Copy")
  }

  /** The document copy `clone_path` takes of a segment equals the segment. */
  lemma CloneCopiesThroughDocument(s: PathSegment)
    ensures SegmentFromDoc(SegmentToDoc(s)).Ok?
    ensures CloneOf(s) == SegmentFromDoc(SegmentToDoc(s)).value.(name := s.name + " Copy")
  {
    SegmentRoundTrip(s);
  }

  /** The position of the copy `clone_path(index)` inserts: `list.insert(index + 1, copy)`
      lands directly after the source, except for `index == -1`, which lands at the front. */
  lemma CloneInsertPosition(index: int, n: nat)
    requires -(n as int) <= index < n
    ensures index != -1 ==> PyInsertPosition(index + 1, n) == PyIndex(index, n).value + 1
    ensures index == -1 ==> PyInsertPosition(index + 1, n) == 0
  {
  }

  /** `clone_path(index)` as written: the copy goes to `list.insert(index + 1, copy)`. */
  function ClonePath(p: Project, index: int): (r: Result<(Project, PathSegment), IndexError>)
    ensures r.Ok? <==> -|p.paths| <= index < |p.paths|
    ensures r.Err? ==> r.error == OutOfRange(index)
    ensures r.Ok? ==>
      var k := if index >= 0 then index else |p.paths| + index;
      && r.value.1 == p.paths[k].(name := p.paths[k].name + " Copy")
      && r.value.0 == p.(paths := InsertAt(p.paths, if index == -1 then 0 else k + 1, r.value.1))
  {
    match PyIndex(index, |p.paths|)
    case None => Err(OutOfRange(index))
    case Some(k) =>
      var copy := CloneOf(p.paths[k]);
      var at := PyInsertPosition(index + 1, |p.paths|);
      CloneInsertPosition(index, |p.paths|);
      Ok((p.(paths := InsertAt(p.paths, at, copy)), copy))
  }

  /** Removing the copy right after cloning restores the project. */
  lemma CloneThenRemove(p: Project, index: nat)
    requires index < |p.paths|
    ensures ClonePath(p, index).Ok?
    ensures RemovePath(ClonePath(p, index).value.0, index + 1) == Ok(p)
  {
    var r := ClonePath(p, index).value;
    DeleteInsert(p.paths, index + 1, r.1);
  }

  /** Removing the last path right after appending restores the project. */
  lemma AddThenRemove(p: Project, segment: Option<PathSegment>)
    ensures RemovePath(AddPath(p, segment).0, -1) == Ok(p)
  {
    var q := AddPath(p, segment).0;
    var n := |p.paths|;
    assert PyIndex(-1, n + 1) == Some(n);
    assert DeleteAt(q.paths, n) == p.paths;
  }

  /** `clone_path(-1)` on a project with paths puts the copy at the front,
      not after the last path it was copied from. */
  lemma ClonePathLastGoesToFront(p: Project)
    requires |p.paths| >= 1
    ensures ClonePath(p, -1).Ok?
    ensures ClonePath(p, -1).value.0.paths[0] == CloneOf(p.paths[|p.paths| - 1])
    ensures |p.paths| >= 2 ==> ClonePath(p, -1).value.0.paths[|p.paths|] != CloneOf(p.paths[|p.paths| - 1])
  {
    var n := |p.paths|;
    var last := p.paths[n - 1];
    var r := ClonePath(p, -1).value;
    assert r.1 == CloneOf(last);
    if n >= 2 {
      assert r.0.paths[n] == last;
      assert |CloneOf(last).name| > |last.name|;
    }
  }

  /** `clone_path` with the copy always inserted directly after its source. */
  function ClonePathAfterSource(p: Project, index: int): (r: Result<(Project, PathSegment), IndexError>)
    ensures r.Ok? <==> -|p.paths| <= index < |p.paths|
    ensures r.Err? ==> r.error == OutOfRange(index)
    ensures r.Ok? ==>
      var k := if index >= 0 then index else |p.paths| + index;
      && r.value.1 == p.paths[k].(name := p.paths[k].name + " Copy")
      && r.value.0 == p.(paths := InsertAt(p.paths, k + 1, r.value.1))
      && r.value.0.paths[k] == p.paths[k] && r.value.0.paths[k + 1] == r.value.1
  {
    var source :- EnsurePath(p, index);
    var k := PyIndex(index, |p.paths|).value;
    var copy := CloneOf(source);
    Ok((p.(paths := InsertAt(p.paths, k + 1, copy)), copy))
  }

  /** Removing the copy right after a corrected clone restores the project, for
      every valid index, `-1` included. */
  lemma CloneAfterSourceThenRemove(p: Project, index: int)
    requires -|p.paths| <= index < |p.paths|
    ensures ClonePathAfterSource(p, index).Ok?
    ensures
      var k := if index >= 0 then index else |p.paths| + index;
      RemovePath(ClonePathAfterSource(p, index).value.0, k + 1) == Ok(p)
  {
    var k := if index >= 0 then index else |p.paths| + index;
    var r := ClonePathAfterSource(p, index).value;
    DeleteInsert(p.paths, k + 1, r.1);
  }
}
