/** Turtle-graphics interpretation of L-system strings in 2D and 3D, and the
    two entry points that configure a system, rewrite its axiom and draw it.

    Each interpreter is a method whose loop walks the command string; its
    result is tied to `Run2D` / `Run3D`, which fold a one-command step
    function over the string. The properties of a drawing (one line per
    `F`/`G`, push/pop discipline of `[`/`]`, ignored characters) are proved
    about those folds. */
module Turtle {
  import opened Common
  import opened Geometry
  import opened LSystems

  // ---------------------------------------------------------------------------
  // Command strings
  // ---------------------------------------------------------------------------

  predicate IsDraw(c: char) { c == 'F' || c == 'G' }

  /** The number of drawing commands in a string. */
  function DrawCount(s: string): nat
    decreases |s|
  {
    if s == [] then 0 else DrawCount(s[..|s| - 1]) + (if IsDraw(s[|s| - 1]) then 1 else 0)
  }

  /** The bracket depth at the end of a string: pushes minus pops. */
  function Depth(s: string): int
    decreases |s|
  {
    if s == [] then 0
    else Depth(s[..|s| - 1]) + (if s[|s| - 1] == '[' then 1 else if s[|s| - 1] == ']' then -1 else 0)
  }

  /** No prefix of the string pops more than it pushed. */
  predicate NeverBelow(s: string) {
    forall k :: 0 <= k <= |s| ==> Depth(s[..k]) >= 0
  }

  /** Brackets properly nested: never below the starting level, and back at it. */
  predicate Balanced(s: string) {
    NeverBelow(s) && Depth(s) == 0
  }

  // ---------------------------------------------------------------------------
  // 2D turtle
  // ---------------------------------------------------------------------------

  /** What `[` saves in 2D. */
  datatype Frame2D = Frame2D(x: real, y: real, direction: real, length: real)

  /** The interpreter's variables: position, direction in degrees, step
      length, the stack of saved frames (top at the end) and the lines drawn. */
  datatype State2D = State2D(x: real, y: real, direction: real, length: real,
                             stack: seq<Frame2D>, lines: seq<Line>)

  /** What stays fixed while interpreting: the plane, the system's turning
      angle, the length decay applied at `[`, and the trigonometry. */
  datatype Pen2D = Pen2D(z: real, angle: real, decay: real, trig: Trig)

  function Start2D(start: Point, initialAngle: real, length: real): State2D {
    State2D(start.x, start.y, initialAngle, length, [], [])
  }

  /** The point `length` ahead of `(x, y)` at `direction` degrees, in the
      plane at height `z`. */
  function Forward2D(x: real, y: real, direction: real, length: real, z: real, trig: Trig): Point {
    var rad := DegreesToRadians(direction);
    Point(x + length * trig.cos(rad), y + length * trig.sin(rad), z)
  }

  function Ahead2D(pen: Pen2D, st: State2D): Point {
    Forward2D(st.x, st.y, st.direction, st.length, pen.z, pen.trig)
  }

  /** One command of `interpret_2d`. */
  function Step2D(pen: Pen2D, st: State2D, c: char): State2D {
    if IsDraw(c) then
      var p := Ahead2D(pen, st);
      st.(x := p.x, y := p.y, lines := st.lines + [Line(Point(st.x, st.y, pen.z), p)])
    else if c == 'f' then
      var p := Ahead2D(pen, st);
      st.(x := p.x, y := p.y)
    else if c == '+' then st.(direction := st.direction - pen.angle)
    else if c == '-' then st.(direction := st.direction + pen.angle)
    else if c == '[' then
      st.(stack := st.stack + [Frame2D(st.x, st.y, st.direction, st.length)],
          length := st.length * pen.decay)
    else if c == ']' then
      if st.stack == [] then st
      else
        var top := st.stack[|st.stack| - 1];
        State2D(top.x, top.y, top.direction, top.length, st.stack[..|st.stack| - 1], st.lines)
    else if c == '|' then st.(direction := st.direction + 180.0)
    else st
  }

  /** The state after interpreting a whole string from `st`. */
  function Run2D(pen: Pen2D, st: State2D, cmds: string): State2D
    decreases |cmds|
  {
    if cmds == [] then st else Step2D(pen, Run2D(pen, st, cmds[..|cmds| - 1]), cmds[|cmds| - 1])
  }

  predicate InPlane(lines: seq<Line>, z: real) {
    forall i :: 0 <= i < |lines| ==> lines[i].startPoint.z == z && lines[i].endPoint.z == z
  }

  /** The body of `interpret_2d`'s loop for one command. */
  method Command2D(cmd: char, x0: real, y0: real, direction0: real, currentLength0: real,
                   stack0: seq<Frame2D>, lines0: seq<Line>,
                   z: real, angle: real, lengthDecay: real, trig: Trig)
    returns (x: real, y: real, direction: real, currentLength: real,
             stack: seq<Frame2D>, lines: seq<Line>)
    ensures State2D(x, y, direction, currentLength, stack, lines)
      == Step2D(Pen2D(z, angle, lengthDecay, trig),
                State2D(x0, y0, direction0, currentLength0, stack0, lines0), cmd)
  {
    x, y, direction, currentLength, stack, lines := x0, y0, direction0, currentLength0, stack0, lines0;
    if cmd == 'F' || cmd == 'G' {
      var p := Forward2D(x, y, direction, currentLength, z, trig);
      lines := lines + [Line(Point(x, y, z), p)];
      x, y := p.x, p.y;
    } else if cmd == 'f' {
      var p := Forward2D(x, y, direction, currentLength, z, trig);
      x, y := p.x, p.y;
    } else if cmd == '+' {
      direction := direction - angle;
    } else if cmd == '-' {
      direction := direction + angle;
    } else if cmd == '[' {
      stack := stack + [Frame2D(x, y, direction, currentLength)];
      currentLength := currentLength * lengthDecay;
    } else if cmd == ']' {
      if stack != [] {
        var top := stack[|stack| - 1];
        x, y, direction, currentLength := top.x, top.y, top.direction, top.length;
        stack := stack[..|stack| - 1];
      }
    } else if cmd == '|' {
      direction := direction + 180.0;
    }
  }

  /** `LSystem.interpret_2d`: the lines drawn by walking the command string. */
  method Interpret2D(system: LSystem, commands: string, startPoint: Point, initialAngle: real,
                     length: real, lengthDecay: real, trig: Trig)
    returns (lines: seq<Line>)
    ensures lines == Run2D(Pen2D(startPoint.z, system.angle, lengthDecay, trig),
                           Start2D(startPoint, initialAngle, length), commands).lines
    ensures |lines| == DrawCount(commands)
    ensures InPlane(lines, startPoint.z)
  {
    ghost var pen := Pen2D(startPoint.z, system.angle, lengthDecay, trig);
    ghost var init := Start2D(startPoint, initialAngle, length);
    lines := [];
    var stack: seq<Frame2D> := [];
    var x, y := startPoint.x, startPoint.y;
    var z := startPoint.z;
    var direction := initialAngle;
    var currentLength := length;
    for i := 0 to |commands|
      invariant State2D(x, y, direction, currentLength, stack, lines) == Run2D(pen, init, commands[..i])
    {
      Run2DSnoc(pen, init, commands, i);
      var cmd := commands[i];
      x, y, direction, currentLength, stack, lines :=
        Command2D(cmd, x, y, direction, currentLength, stack, lines, z, system.angle, lengthDecay, trig);
    }
    assert commands[..|commands|] == commands;
    LinesGrow2D(pen, init, commands);
    StaysInPlane2D(pen, init, commands);
  }

  /** One more command of the string is one more step. */
  lemma Run2DSnoc(pen: Pen2D, st: State2D, w: string, i: nat)
    requires i < |w|
    ensures Run2D(pen, st, w[..i + 1]) == Step2D(pen, Run2D(pen, st, w[..i]), w[i])
  {
    assert w[..i + 1][..i] == w[..i];
  }

  /** Interpreting a concatenation is interpreting the second part from where
      the first one left the turtle. */
  lemma {:induction false} Run2DConcat(pen: Pen2D, st: State2D, a: string, b: string)
    ensures Run2D(pen, st, a + b) == Run2D(pen, Run2D(pen, st, a), b)
    decreases |b|
  {
    if b == [] {
      assert a + b == a;
    } else {
      assert (a + b)[..|a + b| - 1] == a + b[..|b| - 1];
      assert (a + b)[|a + b| - 1] == b[|b| - 1];
      Run2DConcat(pen, st, a, b[..|b| - 1]);
    }
  }

  /** Lines are only ever appended, one per `F` or `G`. */
  lemma {:induction false} LinesGrow2D(pen: Pen2D, st: State2D, w: string)
    ensures |Run2D(pen, st, w).lines| == |st.lines| + DrawCount(w)
    ensures Run2D(pen, st, w).lines[..|st.lines|] == st.lines
    decreases |w|
  {
    if w != [] {
      LinesGrow2D(pen, st, w[..|w| - 1]);
    }
  }

  /** Every line lies in the plane of the start point. */
  lemma {:induction false} StaysInPlane2D(pen: Pen2D, st: State2D, w: string)
    requires InPlane(st.lines, pen.z)
    ensures InPlane(Run2D(pen, st, w).lines, pen.z)
    decreases |w|
  {
    if w != [] {
      StaysInPlane2D(pen, st, w[..|w| - 1]);
    }
  }

  /** A string that never pops below its starting level keeps the stack it
      started with underneath, plus one frame per open bracket. */
  lemma {:induction false} Stack2D(pen: Pen2D, st: State2D, w: string)
    requires NeverBelow(w)
    ensures |Run2D(pen, st, w).stack| == |st.stack| + Depth(w)
    ensures |st.stack| <= |Run2D(pen, st, w).stack| && Run2D(pen, st, w).stack[..|st.stack|] == st.stack
    decreases |w|
  {
    if w != [] {
      var w' := w[..|w| - 1];
      assert NeverBelow(w') by {
        forall k | 0 <= k <= |w'| ensures Depth(w'[..k]) >= 0 {
          assert w'[..k] == w[..k];
        }
      }
      Stack2D(pen, st, w');
      assert w[..|w|] == w;
    }
  }

  /** `[w]` with `w` balanced puts the turtle back exactly where `[` found it
      (position, direction, length and stack), having drawn `w`'s lines. */
  lemma BracketRestores2D(pen: Pen2D, st: State2D, w: string)
    requires Balanced(w)
    ensures var r := Run2D(pen, st, "[" + w + "]");
      && r.x == st.x && r.y == st.y && r.direction == st.direction
      && r.length == st.length && r.stack == st.stack
      && |r.lines| == |st.lines| + DrawCount(w)
  {
    var s1 := Step2D(pen, st, '[');
    assert Run2D(pen, st, "[") == s1 by {
      assert "["[..0] == [];
    }
    Run2DConcat(pen, st, "[", w);
    Stack2D(pen, s1, w);
    var s2 := Run2D(pen, s1, w);
    assert s2.stack == s1.stack;
    Run2DConcat(pen, st, "[" + w, "]");
    assert Run2D(pen, s2, "]") == Step2D(pen, s2, ']') by {
      assert "]"[..0] == [];
    }
    LinesGrow2D(pen, s1, w);
  }

  /** `]` with an empty stack is ignored. */
  lemma EmptyPop2D(pen: Pen2D, st: State2D)
    requires st.stack == []
    ensures Run2D(pen, st, "]") == st
  {
    assert "]"[..0] == [];
  }

  /** A right turn followed by a left turn, or the reverse, changes nothing. */
  lemma TurnsCancel2D(pen: Pen2D, st: State2D)
    ensures Run2D(pen, st, "+-") == st
    ensures Run2D(pen, st, "-+") == st
  {
    assert "+-"[..1] == "+" && "+"[..0] == [];
    assert "-+"[..1] == "-" && "-"[..0] == [];
  }

  predicate Recognised2D(c: char) {
    IsDraw(c) || c == 'f' || c == '+' || c == '-' || c == '[' || c == ']' || c == '|'
  }

  /** The string with every character the 2D interpreter ignores removed. */
  function Keep2D(s: string): string
    decreases |s|
  {
    if s == [] then []
    else Keep2D(s[..|s| - 1]) + (if Recognised2D(s[|s| - 1]) then [s[|s| - 1]] else [])
  }

  /** Unrecognised characters change nothing: interpreting a string is
      interpreting its recognised commands alone. */
  lemma {:induction false} IgnoresUnknown2D(pen: Pen2D, st: State2D, w: string)
    ensures Run2D(pen, st, w) == Run2D(pen, st, Keep2D(w))
    decreases |w|
  {
    if w != [] {
      var c := w[|w| - 1];
      var w' := w[..|w| - 1];
      IgnoresUnknown2D(pen, st, w');
      if Recognised2D(c) {
        var k := Keep2D(w') + [c];
        assert k[..|k| - 1] == Keep2D(w') && k[|k| - 1] == c;
      } else {
        assert Step2D(pen, Run2D(pen, st, w'), c) == Run2D(pen, st, w');
        assert Keep2D(w) == Keep2D(w');
      }
    }
  }

  /** Commands that neither move nor restore the turtle, nor draw. */
  predicate Stationary(w: string) {
    forall i :: 0 <= i < |w| ==> !IsDraw(w[i]) && w[i] != 'f' && w[i] != ']'
  }

  lemma {:induction false} StationaryKeepsPosition2D(pen: Pen2D, st: State2D, w: string)
    requires Stationary(w)
    ensures var r := Run2D(pen, st, w); r.x == st.x && r.y == st.y && r.lines == st.lines
    decreases |w|
  {
    if w != [] {
      StationaryKeepsPosition2D(pen, st, w[..|w| - 1]);
    }
  }

  /** Each line starts where the turtle stands: a line drawn after another,
      with only turns, pushes or ignored characters between them, starts at
      the end of the previous one. */
  lemma Connected2D(pen: Pen2D, st: State2D, c1: char, w: string, c2: char)
    requires IsDraw(c1) && IsDraw(c2) && Stationary(w)
    ensures var r := Run2D(pen, st, [c1] + w + [c2]);
      && |r.lines| == |st.lines| + 2
      && r.lines[|st.lines|].startPoint == Point(st.x, st.y, pen.z)
      && r.lines[|st.lines|].endPoint == r.lines[|st.lines| + 1].startPoint
  {
    var s1 := Step2D(pen, st, c1);
    assert Run2D(pen, st, [c1]) == s1 by {
      assert [c1][..0] == [];
    }
    Run2DConcat(pen, st, [c1], w);
    StationaryKeepsPosition2D(pen, s1, w);
    var s2 := Run2D(pen, s1, w);
    Run2DConcat(pen, st, [c1] + w, [c2]);
    assert Run2D(pen, s2, [c2]) == Step2D(pen, s2, c2) by {
      assert [c2][..0] == [];
    }
  }

  // ---------------------------------------------------------------------------
  // 3D turtle
  // ---------------------------------------------------------------------------

  datatype Vec3 = Vec3(x: real, y: real, z: real)

  /** `_rotate_vector`: Rodrigues' rotation of `v` about `axis` by `angle`
      radians, with the trigonometry supplied. */
  function RotateVector(v: Vec3, axis: Vec3, angle: real, trig: Trig): Vec3 {
    var c := trig.cos(angle);
    var s := trig.sin(angle);
    var dot := axis.x * v.x + axis.y * v.y + axis.z * v.z;
    Vec3(v.x * c + (axis.y * v.z - axis.z * v.y) * s + axis.x * dot * (1.0 - c),
         v.y * c + (axis.z * v.x - axis.x * v.z) * s + axis.y * dot * (1.0 - c),
         v.z * c + (axis.x * v.y - axis.y * v.x) * s + axis.z * dot * (1.0 - c))
  }

  /** An angle whose cosine is 1 and sine 0 rotates nothing. */
  lemma RotateByZero(v: Vec3, axis: Vec3, angle: real, trig: Trig)
    requires trig.cos(angle) == 1.0 && trig.sin(angle) == 0.0
    ensures RotateVector(v, axis, angle, trig) == v
  {
    var dot := axis.x * v.x + axis.y * v.y + axis.z * v.z;
    assert axis.x * dot * (1.0 - 1.0) == 0.0;
    assert axis.y * dot * (1.0 - 1.0) == 0.0;
    assert axis.z * dot * (1.0 - 1.0) == 0.0;
  }

  /** A unit axis is left where it is by any rotation about itself. */
  lemma RotateAboutItself(axis: Vec3, angle: real, trig: Trig)
    requires axis.x * axis.x + axis.y * axis.y + axis.z * axis.z == 1.0
    ensures RotateVector(axis, axis, angle, trig) == axis
  {
    var c := trig.cos(angle);
    var s := trig.sin(angle);
    assert (axis.y * axis.z - axis.z * axis.y) * s == 0.0;
    assert (axis.z * axis.x - axis.x * axis.z) * s == 0.0;
    assert (axis.x * axis.y - axis.y * axis.x) * s == 0.0;
    assert axis.x * c + axis.x * 1.0 * (1.0 - c) == axis.x;
    assert axis.y * c + axis.y * 1.0 * (1.0 - c) == axis.y;
    assert axis.z * c + axis.z * 1.0 * (1.0 - c) == axis.z;
  }

  /** What `[` saves in 3D. */
  datatype Frame3D = Frame3D(position: Point, heading: Vec3, left: Vec3, up: Vec3, length: real)

  datatype State3D = State3D(position: Point, heading: Vec3, left: Vec3, up: Vec3, length: real,
                             stack: seq<Frame3D>, lines: seq<Line>)

  /** The turning angle in radians, the length decay and the trigonometry. */
  datatype Pen3D = Pen3D(angleRad: real, decay: real, trig: Trig)

  /** The initial orientation: the given heading (taken as already of unit
      length) or straight up, with left = -X and up = +Y. */
  function Start3D(start: Point, initialDirection: Option<Vec3>, length: real): State3D {
    var heading := if initialDirection.Some? then initialDirection.value else Vec3(0.0, 0.0, 1.0);
    State3D(start, heading, Vec3(-1.0, 0.0, 0.0), Vec3(0.0, 1.0, 0.0), length, [], [])
  }

  /** The point `length` ahead of `position` along `heading`. */
  function Forward3D(position: Point, heading: Vec3, length: real): Point {
    Point(position.x + heading.x * length,
          position.y + heading.y * length,
          position.z + heading.z * length)
  }

  function Ahead3D(st: State3D): Point {
    Forward3D(st.position, st.heading, st.length)
  }

  /** One command of `interpret_3d`. */
  function Step3D(pen: Pen3D, st: State3D, c: char): State3D {
    var a := pen.angleRad;
    var t := pen.trig;
    if IsDraw(c) then
      var p := Ahead3D(st);
      st.(position := p, lines := st.lines + [Line(st.position, p)])
    else if c == 'f' then st.(position := Ahead3D(st))
    else if c == '+' then
      st.(heading := RotateVector(st.heading, st.up, -a, t), left := RotateVector(st.left, st.up, -a, t))
    else if c == '-' then
      st.(heading := RotateVector(st.heading, st.up, a, t), left := RotateVector(st.left, st.up, a, t))
    else if c == '&' then
      st.(heading := RotateVector(st.heading, st.left, -a, t), up := RotateVector(st.up, st.left, -a, t))
    else if c == '^' then
      st.(heading := RotateVector(st.heading, st.left, a, t), up := RotateVector(st.up, st.left, a, t))
    else if c == '\\' then
      st.(left := RotateVector(st.left, st.heading, a, t), up := RotateVector(st.up, st.heading, a, t))
    else if c == '/' then
      st.(left := RotateVector(st.left, st.heading, -a, t), up := RotateVector(st.up, st.heading, -a, t))
    else if c == '[' then
      st.(stack := st.stack + [Frame3D(st.position, st.heading, st.left, st.up, st.length)],
          length := st.length * pen.decay)
    else if c == ']' then
      if st.stack == [] then st
      else
        var top := st.stack[|st.stack| - 1];
        State3D(top.position, top.heading, top.left, top.up, top.length,
                st.stack[..|st.stack| - 1], st.lines)
    else st
  }

  function Run3D(pen: Pen3D, st: State3D, cmds: string): State3D
    decreases |cmds|
  {
    if cmds == [] then st else Step3D(pen, Run3D(pen, st, cmds[..|cmds| - 1]), cmds[|cmds| - 1])
  }

  /** One more command of the string is one more step. */
  lemma Run3DSnoc(pen: Pen3D, st: State3D, w: string, i: nat)
    requires i < |w|
    ensures Run3D(pen, st, w[..i + 1]) == Step3D(pen, Run3D(pen, st, w[..i]), w[i])
  {
    assert w[..i + 1][..i] == w[..i];
  }

  /** The body of `interpret_3d`'s loop for one command. */
  method Command3D(cmd: char, position0: Point, heading0: Vec3, left0: Vec3, up0: Vec3,
                   currentLength0: real, stack0: seq<Frame3D>, lines0: seq<Line>,
                   angleRad: real, lengthDecay: real, trig: Trig)
    returns (position: Point, heading: Vec3, left: Vec3, up: Vec3, currentLength: real,
             stack: seq<Frame3D>, lines: seq<Line>)
    ensures State3D(position, heading, left, up, currentLength, stack, lines)
      == Step3D(Pen3D(angleRad, lengthDecay, trig),
                State3D(position0, heading0, left0, up0, currentLength0, stack0, lines0), cmd)
  {
    position, heading, left, up, currentLength, stack, lines :=
      position0, heading0, left0, up0, currentLength0, stack0, lines0;
    if cmd == 'F' || cmd == 'G' {
      var newPos := Forward3D(position, heading, currentLength);
      lines := lines + [Line(position, newPos)];
      position := newPos;
    } else if cmd == 'f' {
      position := Forward3D(position, heading, currentLength);
    } else if cmd == '+' {
      heading := RotateVector(heading, up, -angleRad, trig);
      left := RotateVector(left, up, -angleRad, trig);
    } else if cmd == '-' {
      heading := RotateVector(heading, up, angleRad, trig);
      left := RotateVector(left, up, angleRad, trig);
    } else if cmd == '&' {
      heading := RotateVector(heading, left, -angleRad, trig);
      up := RotateVector(up, left, -angleRad, trig);
    } else if cmd == '^' {
      heading := RotateVector(heading, left, angleRad, trig);
      up := RotateVector(up, left, angleRad, trig);
    } else if cmd == '\\' {
      left := RotateVector(left, heading, angleRad, trig);
      up := RotateVector(up, heading, angleRad, trig);
    } else if cmd == '/' {
      left := RotateVector(left, heading, -angleRad, trig);
      up := RotateVector(up, heading, -angleRad, trig);
    } else if cmd == '[' {
      stack := stack + [Frame3D(position, heading, left, up, currentLength)];
      currentLength := currentLength * lengthDecay;
    } else if cmd == ']' {
      if stack != [] {
        var top := stack[|stack| - 1];
        position, heading, left, up, currentLength := top.position, top.heading, top.left, top.up, top.length;
        stack := stack[..|stack| - 1];
      }
    }
  }

  /** `LSystem.interpret_3d`: the lines drawn by walking the command string. */
  method Interpret3D(system: LSystem, commands: string, startPoint: Point,
                     initialDirection: Option<Vec3>, length: real, lengthDecay: real, trig: Trig)
    returns (lines: seq<Line>)
    ensures lines == Run3D(Pen3D(DegreesToRadians(system.angle), lengthDecay, trig),
                           Start3D(startPoint, initialDirection, length), commands).lines
    ensures |lines| == DrawCount(commands)
  {
    ghost var pen := Pen3D(DegreesToRadians(system.angle), lengthDecay, trig);
    ghost var init := Start3D(startPoint, initialDirection, length);
    var heading := if initialDirection.Some? then initialDirection.value else Vec3(0.0, 0.0, 1.0);
    lines := [];
    var stack: seq<Frame3D> := [];
    var position := startPoint;
    var left := Vec3(-1.0, 0.0, 0.0);
    var up := Vec3(0.0, 1.0, 0.0);
    var currentLength := length;
    var angleRad := DegreesToRadians(system.angle);
    for i := 0 to |commands|
      invariant State3D(position, heading, left, up, currentLength, stack, lines)
        == Run3D(pen, init, commands[..i])
    {
      Run3DSnoc(pen, init, commands, i);
      var cmd := commands[i];
      position, heading, left, up, currentLength, stack, lines :=
        Command3D(cmd, position, heading, left, up, currentLength, stack, lines, angleRad, lengthDecay, trig);
    }
    assert commands[..|commands|] == commands;
    LinesGrow3D(pen, init, commands);
  }

  lemma {:induction false} Run3DConcat(pen: Pen3D, st: State3D, a: string, b: string)
    ensures Run3D(pen, st, a + b) == Run3D(pen, Run3D(pen, st, a), b)
    decreases |b|
  {
    if b == [] {
      assert a + b == a;
    } else {
      assert (a + b)[..|a + b| - 1] == a + b[..|b| - 1];
      assert (a + b)[|a + b| - 1] == b[|b| - 1];
      Run3DConcat(pen, st, a, b[..|b| - 1]);
    }
  }

  /** Lines are only ever appended, one per `F` or `G`. */
  lemma {:induction false} LinesGrow3D(pen: Pen3D, st: State3D, w: string)
    ensures |Run3D(pen, st, w).lines| == |st.lines| + DrawCount(w)
    ensures Run3D(pen, st, w).lines[..|st.lines|] == st.lines
    decreases |w|
  {
    if w != [] {
      LinesGrow3D(pen, st, w[..|w| - 1]);
    }
  }

  lemma {:induction false} Stack3D(pen: Pen3D, st: State3D, w: string)
    requires NeverBelow(w)
    ensures |Run3D(pen, st, w).stack| == |st.stack| + Depth(w)
    ensures |st.stack| <= |Run3D(pen, st, w).stack| && Run3D(pen, st, w).stack[..|st.stack|] == st.stack
    decreases |w|
  {
    if w != [] {
      var w' := w[..|w| - 1];
      assert NeverBelow(w') by {
        forall k | 0 <= k <= |w'| ensures Depth(w'[..k]) >= 0 {
          assert w'[..k] == w[..k];
        }
      }
      Stack3D(pen, st, w');
      assert w[..|w|] == w;
    }
  }

  /** `[w]` with `w` balanced restores position, heading, left, up, length
      and stack. */
  lemma BracketRestores3D(pen: Pen3D, st: State3D, w: string)
    requires Balanced(w)
    ensures var r := Run3D(pen, st, "[" + w + "]");
      && r.position == st.position && r.heading == st.heading && r.left == st.left
      && r.up == st.up && r.length == st.length && r.stack == st.stack
      && |r.lines| == |st.lines| + DrawCount(w)
  {
    var s1 := Step3D(pen, st, '[');
    assert Run3D(pen, st, "[") == s1 by {
      assert "["[..0] == [];
    }
    Run3DConcat(pen, st, "[", w);
    Stack3D(pen, s1, w);
    var s2 := Run3D(pen, s1, w);
    assert s2.stack == s1.stack;
    Run3DConcat(pen, st, "[" + w, "]");
    assert Run3D(pen, s2, "]") == Step3D(pen, s2, ']') by {
      assert "]"[..0] == [];
    }
    LinesGrow3D(pen, s1, w);
  }

  lemma EmptyPop3D(pen: Pen3D, st: State3D)
    requires st.stack == []
    ensures Run3D(pen, st, "]") == st
  {
    assert "]"[..0] == [];
  }

  predicate Recognised3D(c: char) {
    || IsDraw(c) || c == 'f' || c == '+' || c == '-' || c == '&' || c == '^'
    || c == '\\' || c == '/' || c == '[' || c == ']'
  }

  function Keep3D(s: string): string
    decreases |s|
  {
    if s == [] then []
    else Keep3D(s[..|s| - 1]) + (if Recognised3D(s[|s| - 1]) then [s[|s| - 1]] else [])
  }

  /** Unrecognised characters, `|` among them, change nothing in 3D. */
  lemma {:induction false} IgnoresUnknown3D(pen: Pen3D, st: State3D, w: string)
    ensures Run3D(pen, st, w) == Run3D(pen, st, Keep3D(w))
    ensures !Recognised3D('|')
    decreases |w|
  {
    if w != [] {
      var c := w[|w| - 1];
      var w' := w[..|w| - 1];
      IgnoresUnknown3D(pen, st, w');
      if Recognised3D(c) {
        var k := Keep3D(w') + [c];
        assert k[..|k| - 1] == Keep3D(w') && k[|k| - 1] == c;
      } else {
        assert Step3D(pen, Run3D(pen, st, w'), c) == Run3D(pen, st, w');
        assert Keep3D(w) == Keep3D(w');
      }
    }
  }

  // ---------------------------------------------------------------------------
  // Entry points
  // ---------------------------------------------------------------------------

  /** The lines `generate_2d` draws for a configured system. */
  function Lines2D(system: LSystem, start: Point, iterations: int, length: real, lengthDecay: real,
                   trig: Trig): seq<Line>
  {
    Run2D(Pen2D(start.z, system.angle, lengthDecay, trig), Start2D(start, 90.0, length),
          Iterate(system.rules, system.axiom, Max(iterations, 0))).lines
  }

  /** The lines `generate_3d` draws for a configured system. */
  function Lines3D(system: LSystem, start: Point, iterations: int, length: real, lengthDecay: real,
                   trig: Trig): seq<Line>
  {
    Run3D(Pen3D(DegreesToRadians(system.angle), lengthDecay, trig), Start3D(start, None, length),
          Iterate(system.rules, system.axiom, Max(iterations, 0))).lines
  }

  /** `generate_2d`: configure, rewrite, draw from the start point (the
      origin by default) heading up (90 degrees). */
  method Generate2D(presetOrAxiom: string, startPoint: Option<Point>, iterations: int, length: real,
                    lengthDecay: real, customRules: Option<string>, customAngle: Option<real>, trig: Trig)
    returns (r: Result<seq<Line>>)
    ensures var config := Configuration(presetOrAxiom, customRules, customAngle);
      var start := if startPoint.Some? then startPoint.value else Point(0.0, 0.0, 0.0);
      && (config.ValueError? ==> r == ValueError(config.message))
      && (config.Ok? ==> r == Ok(Lines2D(config.value, start, iterations, length, lengthDecay, trig)))
      && (r.Ok? ==> |r.value| == DrawCount(Iterate(config.value.rules, config.value.axiom, Max(iterations, 0))))
  {
    var start := if startPoint.Some? then startPoint.value else Point(0.0, 0.0, 0.0);
    var config := Configure(presetOrAxiom, customRules, customAngle);
    if config.ValueError? {
      return ValueError(config.message);
    }
    var commands := Generate(config.value, iterations);
    var lines := Interpret2D(config.value, commands, start, 90.0, length, lengthDecay, trig);
    r := Ok(lines);
  }

  /** `generate_3d`: configure, rewrite, draw from the start point (the
      origin by default) heading straight up. */
  method Generate3D(presetOrAxiom: string, startPoint: Option<Point>, iterations: int, length: real,
                    lengthDecay: real, customRules: Option<string>, customAngle: Option<real>, trig: Trig)
    returns (r: Result<seq<Line>>)
    ensures var config := Configuration(presetOrAxiom, customRules, customAngle);
      var start := if startPoint.Some? then startPoint.value else Point(0.0, 0.0, 0.0);
      && (config.ValueError? ==> r == ValueError(config.message))
      && (config.Ok? ==> r == Ok(Lines3D(config.value, start, iterations, length, lengthDecay, trig)))
      && (r.Ok? ==> |r.value| == DrawCount(Iterate(config.value.rules, config.value.axiom, Max(iterations, 0))))
  {
    var start := if startPoint.Some? then startPoint.value else Point(0.0, 0.0, 0.0);
    var config := Configure(presetOrAxiom, customRules, customAngle);
    if config.ValueError? {
      return ValueError(config.message);
    }
    var commands := Generate(config.value, iterations);
    var lines := Interpret3D(config.value, commands, start, None, length, lengthDecay, trig);
    r := Ok(lines);
  }
}
