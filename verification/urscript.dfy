/** The built-in URScript exporter (plugins/builtin.py): translates a project's
    enabled path segments into a motion program, converting millimetres to
    metres, flooring the commanded velocity and adding a retract move after
    each segment. Instructions are kept structured; their float text is not modelled. */
module URScript {
  import opened Wrappers
  import Text
  import FilePaths
  import Domain
  import Exporters

  const Info: Exporters.ExporterInfo :=
    Exporters.ExporterInfo("builtin.urscript", "Universal Robots URScript", [".script"])

  /** Joint acceleration written into every `movej`. */
  const Acceleration: real := 1.2
  /** Lowest velocity a waypoint move is commanded with, in m/s. */
  const MinVelocity: real := 0.05
  /** Fixed velocity of the synthesised retract move, in m/s. */
  const RetractVelocity: real := 0.1

  const NoPathsMessage: string := "项目中没有路径，无法导出。"
  const SuccessMessage: string := "URScript 程序导出成功"

  /** A tool pose: position in metres, orientation passed through unchanged. */
  datatype Pose = Pose(x: real, y: real, z: real, rx: real, ry: real, rz: real)

  /** One line of the generated program. */
  datatype Instruction =
    | ProgramDef                          // def cobot_program():
    | SetDigitalOut(port: nat, on: bool)  //   set_digital_out(0, False)
    | SegmentComment(name: string)        //   # Segment: <name>
    | SkipComment                         //   # (跳过 - 无点位)
    | RetractComment                      //   # retract
    | MoveJ(pose: Pose, a: real, v: real) //   movej(<pose>, a=<a>, v=<v>)
    | ProgramEnd                          //   end

  /** `max(speed / 1000, 0.05)`: the segment speed in m/s, floored. */
  function Velocity(speed: real): (v: real)
    ensures v >= MinVelocity && v >= speed / 1000.0
    ensures v == speed / 1000.0 || v == MinVelocity
  {
    if speed / 1000.0 >= MinVelocity then speed / 1000.0 else MinVelocity
  }

  function WaypointPose(p: Domain.PathPoint): Pose {
    Pose(p.x / 1000.0, p.y / 1000.0, p.z / 1000.0, p.rx, p.ry, p.rz)
  }

  function RetractPose(last: Domain.PathPoint, retractHeight: real): Pose {
    Pose(last.x / 1000.0, last.y / 1000.0, (last.z + retractHeight) / 1000.0, last.rx, last.ry, last.rz)
  }

  /** `_emit_segment`: the block of one enabled segment. */
  function EmitSegment(s: Domain.PathSegment): (r: seq<Instruction>)
    ensures |r| >= 2 && r[0] == SegmentComment(s.name)
    ensures |s.points| == 0 ==> r == [SegmentComment(s.name), SkipComment]
    ensures |s.points| > 0 ==> |r| == |s.points| + 3
  {
    if |s.points| == 0 then [SegmentComment(s.name), SkipComment]
    else
      var moves := WaypointMoves(s.points, Velocity(s.speed));
      var last := s.points[|s.points| - 1];
      [SegmentComment(s.name)] + moves + [RetractComment, MoveJ(RetractPose(last, s.retractHeight), Acceleration, RetractVelocity)]
  }

  /** One `movej` per waypoint, in order, all at velocity `v`: the position
      converted from millimetres to metres, the orientation unchanged. */
  function WaypointMoves(points: seq<Domain.PathPoint>, v: real): (r: seq<Instruction>)
    ensures |r| == |points|
    ensures forall i :: 0 <= i < |points| ==> r[i].MoveJ? && r[i].a == 1.2 && r[i].v == v
    ensures forall i :: 0 <= i < |points| ==>
      && r[i].pose.x * 1000.0 == points[i].x
      && r[i].pose.y * 1000.0 == points[i].y
      && r[i].pose.z * 1000.0 == points[i].z
    ensures forall i :: 0 <= i < |points| ==>
      r[i].pose.rx == points[i].rx && r[i].pose.ry == points[i].ry && r[i].pose.rz == points[i].rz
  {
    seq(|points|, i requires 0 <= i < |points| => MoveJ(WaypointPose(points[i]), Acceleration, v))
  }

  /** A segment with `n` waypoints emits its header, one move per waypoint in
      order at the floored segment velocity, the retract comment, and the
      retract move above the last waypoint at the fixed retract velocity. */
  lemma EmitSegmentShape(s: Domain.PathSegment)
    requires |s.points| > 0
    ensures
      var r := EmitSegment(s);
      var n := |s.points|;
      && |r| == n + 3
      && r[0] == SegmentComment(s.name)
      && (forall i :: 0 <= i < n ==> r[i + 1] == MoveJ(WaypointPose(s.points[i]), Acceleration, Velocity(s.speed)))
      && r[n + 1] == RetractComment
      && r[n + 2] == MoveJ(RetractPose(s.points[n - 1], s.retractHeight), Acceleration, RetractVelocity)
  {
    var n := |s.points|;
    var moves := WaypointMoves(s.points, Velocity(s.speed));
    var retract := MoveJ(RetractPose(s.points[n - 1], s.retractHeight), Acceleration, RetractVelocity);
    assert EmitSegment(s) == [SegmentComment(s.name)] + moves + [RetractComment, retract];
    FramedIndex(SegmentComment(s.name), moves, RetractComment, retract);
  }

  /** Positions in a sequence framed by one element before and two after. */
  lemma FramedIndex<T>(first: T, middle: seq<T>, penultimate: T, last: T)
    ensures
      var r := [first] + middle + [penultimate, last];
      && |r| == |middle| + 3
      && r[0] == first
      && (forall i :: 0 <= i < |middle| ==> r[i + 1] == middle[i])
      && r[|middle| + 1] == penultimate
      && r[|middle| + 2] == last
  {
  }

  /** The instructions a segment contributes: nothing when disabled. */
  function Block(s: Domain.PathSegment): seq<Instruction> {
    if s.enabled then EmitSegment(s) else []
  }

  /** The segment blocks in project order. */
  function Body(paths: seq<Domain.PathSegment>): seq<Instruction> {
    if |paths| == 0 then [] else Block(paths[0]) + Body(paths[1..])
  }

  /** The whole program: preamble, segment blocks, terminator. */
  function Program(paths: seq<Domain.PathSegment>): (r: seq<Instruction>)
    ensures |r| >= 3
    ensures r[0] == ProgramDef && r[1] == SetDigitalOut(0, false) && r[|r| - 1] == ProgramEnd
    ensures r[2..|r| - 1] == Body(paths)
  {
    [ProgramDef, SetDigitalOut(0, false)] + Body(paths) + [ProgramEnd]
  }

  /** Whether a file name's lower-cased suffix is one the exporter supports. */
  predicate HasSupportedSuffix(name: string) {
    Text.Lower(FilePaths.Suffix(name)) in Info.extensions
  }

  /** The destination after suffix normalisation: kept when its lower-cased
      suffix is supported, otherwise given the first supported extension. */
  function NormaliseDestination(dest: FilePaths.FilePath): (r: Result<FilePaths.FilePath, FilePaths.PathError>)
    ensures HasSupportedSuffix(FilePaths.Name(dest)) ==> r == Ok(dest)
    ensures !HasSupportedSuffix(FilePaths.Name(dest)) ==>
      && (r.Ok? <==> FilePaths.Name(dest) != "")
      && (r.Err? ==> r.error == FilePaths.EmptyName)
    ensures r.Ok? ==> FilePaths.Parent(r.value) == FilePaths.Parent(dest)
    ensures r.Ok? ==> HasSupportedSuffix(FilePaths.Name(r.value))
    ensures !HasSupportedSuffix(FilePaths.Name(dest)) && FilePaths.Name(dest) != "" ==>
      r.Ok? && FilePaths.Name(r.value) == FilePaths.Stem(FilePaths.Name(dest)) + ".script"
  {
    if HasSupportedSuffix(FilePaths.Name(dest)) then Ok(dest)
    else
      var r := FilePaths.WithSuffix(dest, ".script");
      if r.Ok? then
        SuffixScriptSupported(dest);
        r
      else r
  }

  /** Example: ".script" is a well-formed extension that lower-casing leaves alone. */
  lemma ScriptExtension()
    ensures FilePaths.ValidSuffix(".script") && |".script"| >= 2 && '.' !in ".script"[1..]
    ensures Text.Lower(".script") == ".script"
  {
    assert ".script"[1..] == "script";
    Text.LowerOfLowercase(".script");
  }

  /** `with_suffix(".script")` yields a name whose suffix is supported. */
  lemma SuffixScriptSupported(dest: FilePaths.FilePath)
    requires FilePaths.Name(dest) != ""
    ensures FilePaths.WithSuffix(dest, ".script").Ok?
    ensures HasSupportedSuffix(FilePaths.Name(FilePaths.WithSuffix(dest, ".script").value))
  {
    ScriptExtension();
    FilePaths.WithSuffixSetsSuffix(dest, ".script");
  }

  /** The program file an export writes. */
  datatype WrittenFile = WrittenFile(path: FilePaths.FilePath, program: seq<Instruction>)

  /** What one export run returns and writes. */
  datatype ExportRun = ExportRun(result: Exporters.ExportResult, written: Option<WrittenFile>)

  /** `URScriptExporter.export`: an empty project is reported as a failure
      and nothing is written; otherwise the program is written to the
      normalised destination. `with_suffix` errors propagate as `Err`. */
  function Export(p: Domain.Project, destination: FilePaths.FilePath): (r: Result<ExportRun, FilePaths.PathError>)
    ensures |p.paths| == 0 ==> r == Ok(ExportRun(Exporters.ExportResult(false, NoPathsMessage, None), None))
    ensures |p.paths| > 0 ==> (r.Ok? <==> NormaliseDestination(destination).Ok?)
    ensures |p.paths| > 0 && r.Ok? ==>
      var out := NormaliseDestination(destination).value;
      && r.value.result == Exporters.ExportResult(true, SuccessMessage, Some(out))
      && r.value.written == Some(WrittenFile(out, Program(p.paths)))
      && HasSupportedSuffix(FilePaths.Name(out))
  {
    if |p.paths| == 0 then Ok(ExportRun(Exporters.ExportResult(false, NoPathsMessage, None), None))
    else
      var out :- NormaliseDestination(destination);
      Ok(ExportRun(Exporters.ExportResult(true, SuccessMessage, Some(out)), Some(WrittenFile(out, Program(p.paths)))))
  }

  // ---------------------------------------------------------------------------
  // Properties of the translation
  // ---------------------------------------------------------------------------

  lemma {:induction false} BodyAppend(a: seq<Domain.PathSegment>, b: seq<Domain.PathSegment>)
    ensures Body(a + b) == Body(a) + Body(b)
    decreases |a|
  {
    if |a| == 0 {
      assert a + b == b;
    } else {
      assert (a + b)[0] == a[0];
      assert (a + b)[1..] == a[1..] + b;
      BodyAppend(a[1..], b);
      calc {
        Body(a + b);
        Block(a[0]) + Body(a[1..] + b);
        Block(a[0]) + (Body(a[1..]) + Body(b));
        Body(a) + Body(b);
      }
    }
  }

  /** The enabled segments, in order. */
  function Enabled(paths: seq<Domain.PathSegment>): (r: seq<Domain.PathSegment>)
    ensures |r| <= |paths|
    ensures forall i :: 0 <= i < |r| ==> r[i].enabled
  {
    if |paths| == 0 then [] else (if paths[0].enabled then [paths[0]] else []) + Enabled(paths[1..])
  }

  /** Disabled segments contribute no instruction: the body is the blocks of
      the enabled segments alone. */
  lemma {:induction false} DisabledSegmentsEmitNothing(paths: seq<Domain.PathSegment>)
    ensures Body(paths) == Body(Enabled(paths))
    decreases |paths|
  {
    if |paths| > 0 {
      DisabledSegmentsEmitNothing(paths[1..]);
      var head := if paths[0].enabled then [paths[0]] else [];
      BodyAppend(head, Enabled(paths[1..]));
      if paths[0].enabled {
        assert Body(head) == EmitSegment(paths[0]) + Body([]);
      }
    }
  }

  /** The body is the concatenation of the segments' blocks in project order. */
  lemma {:induction false} BodyIsBlocksInOrder(paths: seq<Domain.PathSegment>, i: nat)
    requires i < |paths|
    ensures Body(paths) == Body(paths[..i]) + Block(paths[i]) + Body(paths[i + 1..])
  {
    assert paths == paths[..i] + [paths[i]] + paths[i + 1..];
    BodyAppend(paths[..i] + [paths[i]], paths[i + 1..]);
    BodyAppend(paths[..i], [paths[i]]);
    assert Body([paths[i]]) == Block(paths[i]) + Body([]);
  }

  /** The body is empty exactly when no segment is enabled: every enabled
      segment emits at least its header, even without waypoints. */
  lemma {:induction false} BodyEmptyIffNoneEnabled(paths: seq<Domain.PathSegment>)
    ensures Body(paths) == [] <==> forall i :: 0 <= i < |paths| ==> !paths[i].enabled
    decreases |paths|
  {
    if |paths| > 0 {
      BodyEmptyIffNoneEnabled(paths[1..]);
      assert forall i :: 1 <= i < |paths| ==> paths[i] == paths[1..][i - 1];
    }
  }

  /** Every move of a program is commanded at no less than the velocity floor. */
  lemma {:induction false} EveryMoveAboveFloor(paths: seq<Domain.PathSegment>)
    ensures forall i :: 0 <= i < |Program(paths)| && Program(paths)[i].MoveJ? ==> Program(paths)[i].v >= MinVelocity
  {
    BodyMovesAboveFloor(paths);
    var r := Program(paths);
    forall i | 0 <= i < |r| && r[i].MoveJ?
      ensures r[i].v >= MinVelocity
    {
      assert 2 <= i < |r| - 1;
      assert r[i] == Body(paths)[i - 2];
    }
  }

  /** Every move among the instructions is commanded at no less than the velocity floor. */
  predicate MovesAboveFloor(r: seq<Instruction>) {
    forall i :: 0 <= i < |r| && r[i].MoveJ? ==> r[i].v >= MinVelocity
  }

  lemma MovesAboveFloorAppend(a: seq<Instruction>, b: seq<Instruction>)
    requires MovesAboveFloor(a) && MovesAboveFloor(b)
    ensures MovesAboveFloor(a + b)
  {
    forall i | 0 <= i < |a + b| && (a + b)[i].MoveJ?
      ensures (a + b)[i].v >= MinVelocity
    {
      if i < |a| {
        assert (a + b)[i] == a[i];
      } else {
        assert (a + b)[i] == b[i - |a|];
      }
    }
  }

  lemma {:induction false} BodyMovesAboveFloor(paths: seq<Domain.PathSegment>)
    ensures forall i :: 0 <= i < |Body(paths)| && Body(paths)[i].MoveJ? ==> Body(paths)[i].v >= MinVelocity
    decreases |paths|
  {
    if |paths| > 0 {
      BodyMovesAboveFloor(paths[1..]);
      BlockMovesAboveFloor(paths[0]);
      MovesAboveFloorAppend(Block(paths[0]), Body(paths[1..]));
      assert Body(paths) == Block(paths[0]) + Body(paths[1..]);
    }
  }

  /** Every move of one segment's block is commanded at no less than the velocity floor. */
  lemma BlockMovesAboveFloor(s: Domain.PathSegment)
    ensures forall i :: 0 <= i < |Block(s)| && Block(s)[i].MoveJ? ==> Block(s)[i].v >= MinVelocity
  {
    if s.enabled && |s.points| > 0 {
      var n := |s.points|;
      EmitSegmentShape(s);
      forall i | 0 <= i < |Block(s)| && Block(s)[i].MoveJ?
        ensures Block(s)[i].v >= MinVelocity
      {
        assert 1 <= i <= n || i == n + 2;
      }
    }
  }

  /** The number of moves in a sequence of instructions. */
  function MoveCount(r: seq<Instruction>): nat {
    if |r| == 0 then 0 else (if r[0].MoveJ? then 1 else 0) + MoveCount(r[1..])
  }

  lemma {:induction false} MoveCountAppend(a: seq<Instruction>, b: seq<Instruction>)
    ensures MoveCount(a + b) == MoveCount(a) + MoveCount(b)
    decreases |a|
  {
    if |a| == 0 {
      assert a + b == b;
    } else {
      assert (a + b)[1..] == a[1..] + b;
      MoveCountAppend(a[1..], b);
    }
  }

  lemma {:induction false} MoveCountAllMoves(r: seq<Instruction>)
    requires forall i :: 0 <= i < |r| ==> r[i].MoveJ?
    ensures MoveCount(r) == |r|
    decreases |r|
  {
    if |r| > 0 {
      MoveCountAllMoves(r[1..]);
    }
  }

  /** The moves a segment is expected to command: one per waypoint plus the
      retract, for an enabled segment with waypoints; none otherwise. */
  function ExpectedMoves(paths: seq<Domain.PathSegment>): nat {
    if |paths| == 0 then 0
    else (if paths[0].enabled && |paths[0].points| > 0 then |paths[0].points| + 1 else 0) + ExpectedMoves(paths[1..])
  }

  lemma BlockMoveCount(s: Domain.PathSegment)
    ensures MoveCount(Block(s)) == if s.enabled && |s.points| > 0 then |s.points| + 1 else 0
  {
    if s.enabled {
      var r := EmitSegment(s);
      var n := |s.points|;
      if n == 0 {
        assert r == [SegmentComment(s.name), SkipComment];
        assert MoveCount([SkipComment]) == 0 + MoveCount([]);
        assert MoveCount(r) == 0 + MoveCount([SkipComment]);
      } else {
        EmitSegmentShape(s);
        assert r == [r[0]] + r[1..n + 1] + [r[n + 1]] + [r[n + 2]];
        MoveCountAppend([r[0]] + r[1..n + 1] + [r[n + 1]], [r[n + 2]]);
        MoveCountAppend([r[0]] + r[1..n + 1], [r[n + 1]]);
        MoveCountAppend([r[0]], r[1..n + 1]);
        MoveCountAllMoves(r[1..n + 1]);
        assert MoveCount([r[n + 2]]) == 1 + MoveCount([]);
        assert MoveCount([r[n + 1]]) == 0 + MoveCount([]);
        assert MoveCount([r[0]]) == 0 + MoveCount([]);
      }
    }
  }

  /** A program commands exactly one move per waypoint of each enabled
      segment plus one retract per enabled non-empty segment. */
  lemma {:induction false} ProgramMoveCount(paths: seq<Domain.PathSegment>)
    ensures MoveCount(Program(paths)) == ExpectedMoves(paths)
  {
    BodyMoveCount(paths);
    MoveCountAppend([ProgramDef, SetDigitalOut(0, false)] + Body(paths), [ProgramEnd]);
    MoveCountAppend([ProgramDef, SetDigitalOut(0, false)], Body(paths));
    assert MoveCount([ProgramEnd]) == 0 + MoveCount([]);
    assert MoveCount([ProgramDef, SetDigitalOut(0, false)]) == 0 + MoveCount([SetDigitalOut(0, false)]);
  }

  lemma {:induction false} BodyMoveCount(paths: seq<Domain.PathSegment>)
    ensures MoveCount(Body(paths)) == ExpectedMoves(paths)
    decreases |paths|
  {
    if |paths| > 0 {
      BodyMoveCount(paths[1..]);
      MoveCountAppend(Block(paths[0]), Body(paths[1..]));
      BlockMoveCount(paths[0]);
    }
  }

  /** The waypoints can be read back from a segment's moves: scaling each
      move's position by 1000 gives the waypoint's millimetres, and the
      retract sits `retract_height` above the last waypoint. */
  lemma WaypointsRecoverable(s: Domain.PathSegment)
    requires s.enabled && |s.points| > 0
    ensures forall i :: 0 <= i < |s.points| ==>
      var m := Block(s)[i + 1];
      && m.MoveJ?
      && m.pose.x * 1000.0 == s.points[i].x && m.pose.y * 1000.0 == s.points[i].y && m.pose.z * 1000.0 == s.points[i].z
      && m.pose.rx == s.points[i].rx && m.pose.ry == s.points[i].ry && m.pose.rz == s.points[i].rz
    ensures
      var last := s.points[|s.points| - 1];
      var m := Block(s)[|s.points| + 2];
      && m.pose.x * 1000.0 == last.x && m.pose.y * 1000.0 == last.y
      && m.pose.z * 1000.0 == last.z + s.retractHeight
      && m.pose.rx == last.rx && m.pose.ry == last.ry && m.pose.rz == last.rz
  {
    EmitSegmentShape(s);
  }

  /** Example: a waypoint at x = 1000 mm is commanded at x = 1.0 m. */
  lemma MillimetresToMetres()
    ensures EmitSegment(Domain.PathSegment("S", [Domain.PathPoint(1000.0, 0.0, 0.0, 0.0, 0.0, 0.0, [])], 100.0, 1.0, 0.0, 10.0, 10.0, true))[1].pose.x == 1.0
  {
    EmitSegmentShape(Domain.PathSegment("S", [Domain.PathPoint(1000.0, 0.0, 0.0, 0.0, 0.0, 0.0, [])], 100.0, 1.0, 0.0, 10.0, 10.0, true));
  }
}
