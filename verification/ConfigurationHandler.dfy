/**
 * configuration_handler.c: the field table, the line parser and its fold over a file.
 * A line is what one `fgets` of 200 bytes delivers; the file's contents are a parameter.
 */
module ConfigurationHandler {
  import opened Wrappers
  import opened CStrings
  import opened StringTools

  const MAX_VALUE_LENGTH := 20
  const MAX_FIELD_LENGTH := 200

  datatype ConfigValue = MaxConnections | Port | NumCores | MaxNumRoutes | ConfigNull

  /** `offset` counts bytes; every field is 8 wide. */
  datatype Row = Row(name: Option<string>, offset: nat, kind: ConfigValue)

  const CFG_ENTRIES := [
    Row(Some("max_connections"), 0, MaxConnections),
    Row(Some("port"), 8, Port),
    Row(Some("num_cores"), 16, NumCores),
    Row(Some("max_num_routes"), 24, MaxNumRoutes),
    Row(None, 0, ConfigNull)]

  datatype Config = Config(maxConnections: nat, port: nat, numCores: nat, maxNumRoutes: nat)

  const DEFAULTS := Config(4096, 8888, 8, 256)

  /** The four fields, as the reader of a configuration knows them. */
  type Field = k: ConfigValue | k != ConfigNull witness Port

  function Get(c: Config, f: Field): nat {
    match f
    case MaxConnections => c.maxConnections
    case Port => c.port
    case NumCores => c.numCores
    case MaxNumRoutes => c.maxNumRoutes
  }

  function Set(c: Config, f: Field, v: nat): Config {
    match f
    case MaxConnections => c.(maxConnections := v)
    case Port => c.(port := v)
    case NumCores => c.(numCores := v)
    case MaxNumRoutes => c.(maxNumRoutes := v)
  }

  function NameOf(f: Field): (name: string)
    ensures 2 <= |name| <= 15
    ensures forall i :: 0 <= i < |name| ==> !IsBreak(name[i]) && name[i] != NUL
  {
    match f
    case MaxConnections => "max_connections"
    case Port => "port"
    case NumCores => "num_cores"
    case MaxNumRoutes => "max_num_routes"
  }

  function FieldNamed(name: string): (r: Option<Field>)
    ensures r.Some? ==> NameOf(r.value) == name
    ensures r.None? ==> forall f: Field :: NameOf(f) != name
  {
    if name == "max_connections" then Some(MaxConnections)
    else if name == "port" then Some(Port)
    else if name == "num_cores" then Some(NumCores)
    else if name == "max_num_routes" then Some(MaxNumRoutes)
    else None
  }

  /** The names of the four fields, as a configuration file spells them. */
  ghost predicate FieldWord(name: string, f: Field) {
    match f
    case MaxConnections => name == "max_connections"
    case Port => name == "port"
    case NumCores => name == "num_cores"
    case MaxNumRoutes => name == "max_num_routes"
  }

  // ---------------------------------------------------------------- table lookup

  /** The word of the struct at a byte offset. */
  function WordAt(c: Config, offset: nat): nat
    requires offset in {0, 8, 16, 24}
  {
    if offset == 0 then c.maxConnections else if offset == 8 then c.port
    else if offset == 16 then c.numCores else c.maxNumRoutes
  }

  function WithWordAt(c: Config, offset: nat, v: nat): Config
    requires offset in {0, 8, 16, 24}
  {
    if offset == 0 then c.(maxConnections := v) else if offset == 8 then c.(port := v)
    else if offset == 16 then c.(numCores := v) else c.(maxNumRoutes := v)
  }

  method ValidateFieldName(name: string) returns (entry: Option<Row>)
    ensures entry.Some? <==> FieldNamed(name).Some?
    ensures entry.Some? ==> entry.value.kind == FieldNamed(name).value && entry.value.offset in {0, 8, 16, 24}
    ensures entry.Some? ==> forall c :: WordAt(c, entry.value.offset) == Get(c, FieldNamed(name).value)
    ensures entry.Some? ==> forall c, v :: WithWordAt(c, entry.value.offset, v) == Set(c, FieldNamed(name).value, v)
  {
    var cursor := 0;
    while CFG_ENTRIES[cursor].name.Some?
      invariant cursor <= 4
      invariant forall i :: 0 <= i < cursor ==> CFG_ENTRIES[i].name != Some(name)
      decreases 4 - cursor
    {
      if CFG_ENTRIES[cursor].name.value == name {
        return Some(CFG_ENTRIES[cursor]);
      }
      cursor := cursor + 1;
    }
    assert cursor == 4;
    assert CFG_ENTRIES[0].name != Some(name) && CFG_ENTRIES[1].name != Some(name);
    assert CFG_ENTRIES[2].name != Some(name) && CFG_ENTRIES[3].name != Some(name);
    entry := None;
  }

  method FindEnumRow(target: ConfigValue) returns (entry: Option<Row>)
    ensures entry.Some? <==> target != ConfigNull
    ensures entry.Some? ==> entry.value.offset in {0, 8, 16, 24}
    ensures entry.Some? ==> forall c :: WordAt(c, entry.value.offset) == Get(c, target)
  {
    var cursor := 0;
    while CFG_ENTRIES[cursor].kind != ConfigNull
      invariant cursor <= 4
      invariant forall i :: 0 <= i < cursor ==> CFG_ENTRIES[i].kind != target
      decreases 4 - cursor
    {
      if target == CFG_ENTRIES[cursor].kind {
        return Some(CFG_ENTRIES[cursor]);
      }
      cursor := cursor + 1;
    }
    assert cursor == 4;
    assert CFG_ENTRIES[0].kind != target && CFG_ENTRIES[1].kind != target;
    assert CFG_ENTRIES[2].kind != target && CFG_ENTRIES[3].kind != target;
    entry := None;
  }

  // ---------------------------------------------------------------- one line

  predicate IsBreak(c: char) {
    c == ' ' || c == '\n' || c == '\r'
  }

  /** Where the field name ends: the first space, newline or carriage return. */
  function NameEnd(line: string): (d: nat)
    ensures d <= |line| && forall i :: 0 <= i < d ==> !IsBreak(line[i])
    ensures d < |line| ==> IsBreak(line[d])
  {
    if line == [] || IsBreak(line[0]) then 0 else 1 + NameEnd(line[1..])
  }

  /** Break characters behind the text do not matter, except that a name without one runs on past the NUL. */
  lemma BufferName(buffer: string, text: string)
    requires 1 <= |text| < |buffer| && text <= buffer && buffer[|text|] == NUL
    ensures NameEnd(text) < |text| ==>
              NameEnd(buffer) == NameEnd(text) && buffer[..NameEnd(buffer)] == text[..NameEnd(text)]
    ensures NameEnd(text) == |text| ==>
              NameEnd(buffer) > |text| && CStr(buffer[..NameEnd(buffer)], NUL) == CStr(text, NUL)
  {
    var d := NameEnd(text);
    if d < |text| {
      NameEndIs(buffer, d);
    } else {
      assert NameEnd(buffer) > |text|;
      var name := buffer[..NameEnd(buffer)];
      var z := Find(text, NUL);
      FindIs(name, NUL, z);
      assert name[..z] == text[..z];
    }
  }

  /** The value text: up to a newline, a NUL, or the end of the line. */
  function ValueText(line: string, start: nat): (s: string)
    requires start <= |line|
    ensures |s| <= |line| - start && s == line[start..start + |s|]
    ensures forall i :: 0 <= i < |s| ==> s[i] != NUL && s[i] != '\n'
    ensures At(line, start + |s|) == NUL || At(line, start + |s|) == '\n'
    decreases |line| - start
  {
    if start == |line| || line[start] == NUL || line[start] == '\n' then []
    else [line[start]] + ValueText(line, start + 1)
  }

  datatype Effect = Ignore | Assign(field: Field, value: nat) | Reject

  /** Name, " = " and a digit: the shape a line needs for its value to be looked at. */
  predicate Assigns(line: string, d: nat) {
    && d >= 2 && d < |line| && FieldNamed(CStr(line[..d], NUL)).Some?
    && At(line, d + 1) == '=' && At(line, d + 2) == ' ' && IsDigit(At(line, d + 3))
  }

  /** What the value cache of 20 bytes takes of the value text. */
  function Cached(text: string): string {
    if |text| <= MAX_VALUE_LENGTH then text else text[..MAX_VALUE_LENGTH]
  }

  /**
   * The lines whose effect is settled. Left out are a known name with no break character after it, which
   * sends the parser into what earlier lines left in the buffer, and a value of 20 digits or more, which
   * fills its cache and leaves no terminator for the conversion loop.
   */
  predicate Readable(line: string) {
    var d := NameEnd(line);
    && 1 <= |line| < MAX_FIELD_LENGTH
    && (d == |line| ==> FieldNamed(CStr(line, NUL)).None?)
    && (Assigns(line, d) ==>
          var cache := Cached(ValueText(line, d + 3)); |cache| < MAX_VALUE_LENGTH || !Digits(cache))
  }

  /** What one line does. */
  function EffectOf(line: string): Effect
    requires Readable(line)
  {
    var d := NameEnd(line);
    if d == |line| then Reject
    else if d < 2 then Ignore
    else if !Assigns(line, d) then Reject
    else
      var text := ValueText(line, d + 3);
      if !Digits(text) || Value(text) == 0 then Reject
      else Assign(FieldNamed(CStr(line[..d], NUL)).value, Value(text))
  }

  // ---------------------------------------------------------------- the file

  /** What the next `fgets` delivers. */
  function NextLine(file: string): (line: string)
    requires file != []
    ensures 1 <= |line| < MAX_FIELD_LENGTH && line <= file
  {
    var upTo := Find(file, '\n') + 1;
    var n := if upTo < |file| then upTo else |file|;
    file[..if n < MAX_FIELD_LENGTH - 1 then n else MAX_FIELD_LENGTH - 1]
  }

  function Rest(file: string): (rest: string)
    requires file != []
    ensures |rest| < |file| && NextLine(file) + rest == file
  {
    file[|NextLine(file)|..]
  }

  /** Every line up to and including the first rejected one is readable. */
  predicate ReadableFile(file: string)
    decreases |file|
  {
    file != [] ==> Readable(NextLine(file)) && (EffectOf(NextLine(file)) != Reject ==> ReadableFile(Rest(file)))
  }

  /** The assignments of the lines before the first rejected one. */
  function Accepted(file: string): seq<(Field, nat)>
    requires ReadableFile(file)
    decreases |file|
  {
    if file == [] then []
    else
      match EffectOf(NextLine(file))
      case Ignore => Accepted(Rest(file))
      case Assign(f, v) => [(f, v)] + Accepted(Rest(file))
      case Reject => []
  }

  predicate AllAccepted(file: string)
    requires ReadableFile(file)
    decreases |file|
  {
    file != [] ==> EffectOf(NextLine(file)) != Reject && AllAccepted(Rest(file))
  }

  function Override(c: Config, assignments: seq<(Field, nat)>): Config
    decreases |assignments|
  {
    if assignments == [] then c
    else Override(Set(c, assignments[0].0, assignments[0].1), assignments[1..])
  }

  class Handler {
    var config: Config

    constructor ()
      ensures config == Config(4096, 8888, 8, 256)
    {
      config := DEFAULTS;
    }

    /** The name loop: copies up to the first break character of the whole buffer. */
    method ReadName(line: array<char>) returns (name: string, cursor: nat)
      requires line.Length == MAX_FIELD_LENGTH
      ensures cursor == NameEnd(line[..]) && name == line[..cursor]
    {
      name, cursor := [], 0;
      while |name| < MAX_FIELD_LENGTH
        invariant cursor == |name| <= MAX_FIELD_LENGTH && name == line[..cursor]
        invariant forall i :: 0 <= i < cursor ==> !IsBreak(line[i])
        decreases MAX_FIELD_LENGTH - cursor
      {
        if IsBreak(line[cursor]) {
          NameEndIs(line[..], cursor);
          return;
        }
        name := name + [line[cursor]];
        cursor := cursor + 1;
      }
    }

    /** The value loop: copies up to a newline or NUL, at most 20 bytes. */
    method CopyValue(line: array<char>, start: nat, ghost text: string) returns (cache: string)
      requires line.Length == MAX_FIELD_LENGTH && |text| < MAX_FIELD_LENGTH
      requires line[..|text|] == text && line[|text|] == NUL && start <= |text|
      ensures cache == Cached(ValueText(text, start))
    {
      ghost var wanted := ValueText(text, start);
      cache := [];
      var cursor := start;
      for charIndex := 0 to MAX_VALUE_LENGTH
        invariant charIndex <= |wanted| && cursor == start + charIndex && cache == wanted[..charIndex]
      {
        assert line[cursor] == At(text, cursor);
        assert charIndex < |wanted| ==> wanted[charIndex] == text[cursor];
        if line[cursor] == NUL || line[cursor] == '\n' {
          break;
        }
        cache := cache + [line[cursor]];
        cursor := cursor + 1;
      }
    }

    /** The conversion loop: multiplies and adds in 64 bits. None when a byte is no digit. */
    method Convert(cache: string) returns (value: Option<nat>)
      requires |cache| < MAX_VALUE_LENGTH || (|cache| == MAX_VALUE_LENGTH && !Digits(cache))
      ensures value == if Digits(cache) then Some(Value(cache)) else None
    {
      var sum: nat, at := 0, 0;
      while at < |cache|
        invariant at <= |cache| && Digits(cache[..at])
        invariant sum == Value(cache[..at]) < Pow10(at)
      {
        if !IsDigit(cache[at]) {
          return None;
        }
        assert cache[..at + 1][..at] == cache[..at];
        assert forall i :: 0 <= i < at ==> cache[..at][i] == cache[i];
        NineteenDigitsFit(at + 1);
        sum := (sum * 10 + (cache[at] as int - '0' as int)) % WORD;
        at := at + 1;
      }
      assert cache[..|cache|] == cache;
      value := Some(sum);
    }

    /** Parses one line and stores what it assigns; false when the line is rejected. */
    method ParseLine(line: array<char>, ghost text: string) returns (ok: bool)
      requires line.Length == MAX_FIELD_LENGTH && Readable(text) && line[..|text|] == text && line[|text|] == NUL
      modifies this
      ensures ok <==> EffectOf(text) != Reject
      ensures config == match EffectOf(text)
                        case Assign(f, v) => Set(old(config), f, v)
                        case _ => old(config)
    {
      hide FieldNamed, NameOf, ValueText, NameEnd, Get, Set, WordAt, WithWordAt, Value, CStr;
      assert forall i :: 0 <= i < |text| ==> line[i] == line[..|text|][i];
      BufferName(line[..], text);
      var name, cursor := ReadName(line);
      ghost var d := cursor;
      if |name| < 2 {
        return true;
      }
      var entry := ValidateFieldName(CStr(name, NUL));
      if entry.None? {
        return false;
      }
      cursor := cursor + 1;
      assert line[d + 1] == At(text, d + 1);
      if line[cursor] != '=' {
        return false;
      }
      cursor := cursor + 1;
      assert line[d + 2] == At(text, d + 2);
      if line[cursor] != ' ' {
        return false;
      }
      cursor := cursor + 1;
      assert line[d + 3] == At(text, d + 3);
      if line[cursor] < '0' || line[cursor] > '9' {
        return false;
      }
      var cache := CopyValue(line, cursor, text);
      var value := Convert(cache);
      if value.None? || value.value <= 0 {
        return false;
      }
      config := WithWordAt(config, entry.value.offset, value.value);
      ok := true;
    }

    /** `fgets`: the line and a NUL at the front of the buffer; what was behind them stays. */
    method ReadLine(line: array<char>, file: string) returns (rest: string)
      requires line.Length == MAX_FIELD_LENGTH && file != []
      modifies line
      ensures rest == Rest(file)
      ensures line[..|NextLine(file)|] == NextLine(file) && line[|NextLine(file)|] == NUL
      ensures line[|NextLine(file)| + 1..] == old(line[|NextLine(file)| + 1..])
    {
      var text := NextLine(file);
      for i := 0 to |text|
        invariant line[..i] == text[..i] && line[i..] == old(line[i..])
      {
        line[i] := text[i];
      }
      line[|text|] := NUL;
      rest := file[|text|..];
    }

    method ParseConfiguration(file: string) returns (ok: bool)
      requires ReadableFile(file)
      modifies this
      ensures config == Override(old(config), Accepted(file))
      ensures ok <==> AllAccepted(file)
    {
      var line := new char[MAX_FIELD_LENGTH](_ => NUL);
      var rest := file;
      while rest != []
        invariant ReadableFile(rest) && fresh(line)
        invariant Override(config, Accepted(rest)) == Override(old(config), Accepted(file))
        invariant AllAccepted(rest) <==> AllAccepted(file)
        decreases |rest|
      {
        ghost var text, left := NextLine(rest), rest;
        rest := ReadLine(line, rest);
        var accepted := ParseLine(line, text);
        assert EffectOf(text).Assign? ==>
            && Accepted(left) == [(EffectOf(text).field, EffectOf(text).value)] + Accepted(rest)
            && Accepted(left)[1..] == Accepted(rest);
        if !accepted {
          return false;
        }
      }
      ok := true;
    }

    method FetchByName(target: string) returns (value: Option<nat>)
      ensures target == "max_connections" ==> value == Some(config.maxConnections)
      ensures target == "port" ==> value == Some(config.port)
      ensures target == "num_cores" ==> value == Some(config.numCores)
      ensures target == "max_num_routes" ==> value == Some(config.maxNumRoutes)
      ensures target !in {"max_connections", "port", "num_cores", "max_num_routes"} ==> value == None
    {
      var entry := ValidateFieldName(target);
      value := if entry.None? then None else Some(WordAt(config, entry.value.offset));
    }

    method FetchByEnum(target: ConfigValue) returns (value: Option<nat>)
      ensures value == match target
                       case MaxConnections => Some(config.maxConnections)
                       case Port => Some(config.port)
                       case NumCores => Some(config.numCores)
                       case MaxNumRoutes => Some(config.maxNumRoutes)
                       case ConfigNull => None
    {
      var entry := FindEnumRow(target);
      value := if entry.None? then None else Some(WordAt(config, entry.value.offset));
    }
  }

  lemma PowersOfTen()
    ensures Pow10(19) == 1_0000_0000_0000_0000_000
  {
    assert Pow10(0) == 1;
    assert Pow10(1) == 10;
    assert Pow10(2) == 100;
    assert Pow10(4) == 1_0000;
    assert Pow10(6) == 100_0000;
    assert Pow10(8) == 1_0000_0000;
    assert Pow10(10) == 100_0000_0000;
    assert Pow10(12) == 1_0000_0000_0000;
    assert Pow10(14) == 100_0000_0000_0000;
    assert Pow10(16) == 1_0000_0000_0000_0000;
    assert Pow10(18) == 100_0000_0000_0000_0000;
  }

  /** Nineteen digits cannot wrap a 64-bit word. */
  lemma {:induction false} NineteenDigitsFit(k: nat)
    requires k <= 19
    ensures Pow10(k) < WORD
    decreases 19 - k
  {
    if k == 19 {
      PowersOfTen();
    } else {
      NineteenDigitsFit(k + 1);
    }
  }

  // ---------------------------------------------------------------- what the parser promises

  /** The last value assigned to `f`, if any. */
  function LastAssigned(assignments: seq<(Field, nat)>, f: Field): Option<nat> {
    if assignments == [] then None
    else
      var (g, v) := assignments[|assignments| - 1];
      if g == f then Some(v) else LastAssigned(assignments[..|assignments| - 1], f)
  }

  lemma {:induction false} OverrideAppend(c: Config, front: seq<(Field, nat)>, last: (Field, nat))
    ensures Override(c, front + [last]) == Set(Override(c, front), last.0, last.1)
    decreases |front|
  {
    if front == [] {
      assert (front + [last])[1..] == [];
    } else {
      assert (front + [last])[1..] == front[1..] + [last];
      OverrideAppend(Set(c, front[0].0, front[0].1), front[1..], last);
    }
  }

  /** A field ends up with the value last assigned to it, and keeps its old one if there is none. */
  lemma {:induction false} LastAssignmentWins(c: Config, assignments: seq<(Field, nat)>, f: Field)
    ensures Get(Override(c, assignments), f) ==
            match LastAssigned(assignments, f) case Some(v) => v case None => Get(c, f)
    decreases |assignments|
  {
    if assignments != [] {
      var front, last := assignments[..|assignments| - 1], assignments[|assignments| - 1];
      assert assignments == front + [last];
      OverrideAppend(c, front, last);
      LastAssignmentWins(c, front, f);
    }
  }

  /** `name = n` and a newline, the number printed as size_t_to_string prints it. */
  function PrintLine(f: Field, n: nat): string {
    NameOf(f) + " = " + Decimal(n) + "\n"
  }

  lemma {:induction false} ValueTextIs(line: string, start: nat, text: string)
    requires start + |text| <= |line| && line[start..start + |text|] == text
    requires At(line, start + |text|) == '\n' || At(line, start + |text|) == NUL
    requires forall i :: 0 <= i < |text| ==> text[i] != NUL && text[i] != '\n'
    ensures ValueText(line, start) == text
    decreases |text|
  {
    if text != [] {
      assert line[start] == text[0];
      assert line[start + 1..start + |text|] == text[1..];
      ValueTextIs(line, start + 1, text[1..]);
    }
  }

  lemma {:induction false} NameEndIs(line: string, d: nat)
    requires d < |line| && IsBreak(line[d]) && forall i :: 0 <= i < d ==> !IsBreak(line[i])
    ensures NameEnd(line) == d
  {
    if d > 0 { NameEndIs(line[1..], d - 1); }
  }

  /** One `fgets`: up to and including the first newline, 199 bytes at most, or all that is left. */
  lemma NextLineGrammar(file: string, line: string)
    requires file != ""
    ensures NextLine(file) == line <==>
              && 1 <= |line| <= 199 && line <= file && '\n' !in line[..|line| - 1]
              && (line[|line| - 1] == '\n' || |line| == 199 || line == file)
  {
    var upTo := Find(file, '\n');
    var next := NextLine(file);
    assert forall i :: 0 <= i < |next| - 1 ==> next[i] == file[i];
    if 1 <= |line| && line <= file && '\n' !in line[..|line| - 1] {
      assert forall i :: 0 <= i < |line| - 1 ==> line[..|line| - 1][i] == file[i];
    }
  }

  lemma NextLineIs(body: string, rest: string)
    requires |body| < MAX_FIELD_LENGTH - 1 && forall i :: 0 <= i < |body| ==> body[i] != '\n'
    ensures NextLine(body + "\n" + rest) == body + "\n" && Rest(body + "\n" + rest) == rest
  {
    FindIs(body + "\n" + rest, '\n', |body|);
  }

  /** How a line of the shape `name = digits` comes apart again. */
  lemma LineShape(name: string, digits: string)
    requires 1 <= |digits| < MAX_VALUE_LENGTH && Digits(digits) && 2 <= |name| <= 15
    requires forall i :: 0 <= i < |name| ==> !IsBreak(name[i])
    ensures var line := name + " = " + digits + "\n";
            && |line| < MAX_FIELD_LENGTH && NameEnd(line) == |name| && line[..|name|] == name
            && At(line, |name| + 1) == '=' && At(line, |name| + 2) == ' ' && IsDigit(At(line, |name| + 3))
            && ValueText(line, |name| + 3) == digits
  {
    hide ValueText, NameEnd;
    var line := name + " = " + digits + "\n";
    assert line[|name|] == ' ';
    NameEndIs(line, |name|);
    ValueTextIs(line, |name| + 3, digits);
  }

  lemma ShapeAssigns(line: string, d: nat, f: Field, digits: string)
    requires NameEnd(line) == d && 2 <= d && d + 3 <= |line| < MAX_FIELD_LENGTH
    requires FieldNamed(CStr(line[..d], NUL)) == Some(f)
    requires At(line, d + 1) == '=' && At(line, d + 2) == ' ' && IsDigit(At(line, d + 3))
    requires ValueText(line, d + 3) == digits && |digits| < MAX_VALUE_LENGTH && Digits(digits) && Value(digits) > 0
    ensures Readable(line) && EffectOf(line) == Assign(f, Value(digits))
  {
    hide FieldNamed, NameOf, Value, CStr, ValueText, NameEnd;
  }

  lemma NoNewline(name: string, digits: string)
    requires Digits(digits) && forall i :: 0 <= i < |name| ==> !IsBreak(name[i])
    ensures var body := name + " = " + digits; forall i :: 0 <= i < |body| ==> body[i] != '\n'
  {
  }

  lemma ShapedLineAssigns(name: string, f: Field, digits: string)
    requires 1 <= |digits| < MAX_VALUE_LENGTH && Digits(digits) && Value(digits) > 0 && 2 <= |name| <= 15
    requires forall i :: 0 <= i < |name| ==> !IsBreak(name[i])
    requires NUL !in name && FieldNamed(name) == Some(f)
    ensures var line := name + " = " + digits + "\n"; Readable(line) && EffectOf(line) == Assign(f, Value(digits))
  {
    hide NameOf, FieldNamed, Value, ValueText, NameEnd, EffectOf, Readable, CStr, Digits;
    var line := name + " = " + digits + "\n";
    LineShape(name, digits);
    assert CStr(line[..|name|], NUL) == name;
    ShapeAssigns(line, |name|, f, digits);
  }

  lemma ShapedLineIsNext(name: string, digits: string, rest: string)
    requires 1 <= |digits| < MAX_VALUE_LENGTH && Digits(digits) && 2 <= |name| <= 15
    requires forall i :: 0 <= i < |name| ==> !IsBreak(name[i])
    ensures var line := name + " = " + digits + "\n"; NextLine(line + rest) == line && Rest(line + rest) == rest
  {
    hide NextLine, Rest;
    NoNewline(name, digits);
    NextLineIs(name + " = " + digits, rest);
  }

  /** A printed line is one fgets line and assigns exactly its number to its field. */
  lemma PrintedLineAssigns(f: Field, n: nat, rest: string)
    requires 1 <= n < Pow10(19)
    ensures NextLine(PrintLine(f, n) + rest) == PrintLine(f, n) && Rest(PrintLine(f, n) + rest) == rest
    ensures Readable(PrintLine(f, n)) && EffectOf(PrintLine(f, n)) == Assign(f, n)
  {
    DecimalLength(n, 19);
    ValueOfDecimal(n);
    assert NUL !in NameOf(f);
    ShapedLineAssigns(NameOf(f), f, Decimal(n));
    ShapedLineIsNext(NameOf(f), Decimal(n), rest);
  }

  ghost predicate Unbroken(s: string) {
    ' ' !in s && '\n' !in s && '\r' !in s
  }

  lemma UnbrokenIs(s: string)
    ensures Unbroken(s) <==> forall i :: 0 <= i < |s| ==> !IsBreak(s[i])
  {
    if Unbroken(s) {
      forall i | 0 <= i < |s| ensures !IsBreak(s[i]) {
        assert s[i] in s;
      }
    }
  }

  /** An accepted line in full: name, one break character, "= ", digits, then the end of the text. */
  ghost predicate LineSays(line: string, name: string, brk: char, digits: string, tail: string, f: Field, v: nat) {
    && line == name + [brk] + "= " + digits + tail
    && brk in {' ', '\n', '\r'} && Unbroken(name)
    && FieldWord(CStr(name, NUL), f)
    && digits != "" && Digits(digits) && Value(digits) == v > 0
    && (tail == "" || tail[0] == NUL || tail[0] == '\n')
  }

  /** The readable lines that assign v to f are exactly these. */
  lemma LineGrammar(line: string, f: Field, v: nat)
    requires Readable(line)
    ensures EffectOf(line) == Assign(f, v) <==>
              exists name, brk, digits, tail :: LineSays(line, name, brk, digits, tail, f, v)
  {
    hide EffectOf, Readable, ValueText, NameEnd, LineSays;
    if EffectOf(line) == Assign(f, v) {
      SplitLine(line, f, v);
    }
    if name, brk, digits, tail :| LineSays(line, name, brk, digits, tail, f, v) {
      JoinLine(line, name, brk, digits, tail, f, v);
    }
  }

  /** A line that is skipped, whatever else it holds: its first or second character is a break character. */
  ghost predicate Skips(line: string) {
    (line != "" && line[0] in {' ', '\n', '\r'}) || (|line| >= 2 && line[1] in {' ', '\n', '\r'})
  }

  /** The readable lines that are skipped are exactly those; what neither skips nor assigns stops the parser. */
  lemma OtherLines(line: string)
    requires Readable(line)
    ensures EffectOf(line) == Ignore <==> Skips(line)
    ensures EffectOf(line) == Reject <==>
              !Skips(line) && forall name, brk, digits, tail, f, v :: !LineSays(line, name, brk, digits, tail, f, v)
  {
    IgnoredLines(line);
    hide EffectOf, Readable, LineSays, Skips;
    if EffectOf(line) == Reject {
      forall name, brk, digits, tail, f, v ensures !LineSays(line, name, brk, digits, tail, f, v) {
        LineGrammar(line, f, v);
      }
    } else if EffectOf(line) != Ignore {
      LineGrammar(line, EffectOf(line).field, EffectOf(line).value);
    }
  }

  lemma IgnoredLines(line: string)
    requires Readable(line)
    ensures EffectOf(line) == Ignore <==> Skips(line)
  {
    hide FieldNamed, CStr, ValueText, Value, NameEnd;
    var d := NameEnd(line);
    assert d == 0 <==> line != "" && IsBreak(line[0]);
  }

  lemma Glue(line: string, d: nat, n: nat)
    requires d + 3 + n <= |line| && line[d + 1] == '=' && line[d + 2] == ' '
    ensures line == line[..d] + [line[d]] + "= " + line[d + 3..d + 3 + n] + line[d + 3 + n..]
  {
  }

  lemma Pieces(name: string, brk: char, digits: string, tail: string)
    ensures var line, d := name + [brk] + "= " + digits + tail, |name|;
            && d + 3 + |digits| <= |line| && line[..d] == name && line[d] == brk
            && line[d + 1] == '=' && line[d + 2] == ' ' && line[d + 3..d + 3 + |digits|] == digits
            && (digits != "" ==> line[d + 3] == digits[0])
            && (if tail == "" then |line| == d + 3 + |digits|
                else d + 3 + |digits| < |line| && line[d + 3 + |digits|] == tail[0])
            && forall i :: 0 <= i < d ==> line[i] == name[i]
  {
  }

  lemma AssignFacts(line: string, f: Field, v: nat)
    requires Readable(line) && EffectOf(line) == Assign(f, v)
    ensures var d := NameEnd(line);
            && d + 3 <= |line| && IsBreak(line[d]) && line[d + 1] == '=' && line[d + 2] == ' '
            && FieldNamed(CStr(line[..d], NUL)) == Some(f)
            && ValueText(line, d + 3) != "" && Digits(ValueText(line, d + 3)) && Value(ValueText(line, d + 3)) == v > 0
  {
    hide NameOf, FieldNamed, Value;
  }

  lemma SplitLine(line: string, f: Field, v: nat)
    requires Readable(line) && EffectOf(line) == Assign(f, v)
    ensures var d := NameEnd(line); var text := ValueText(line, d + 3);
            d + 3 + |text| <= |line| && LineSays(line, line[..d], line[d], text, line[d + 3 + |text|..], f, v)
  {
    hide NameOf, FieldNamed, FieldWord, CStr, Value, EffectOf, Readable, ValueText, NameEnd, Digits, Unbroken;
    AssignFacts(line, f, v);
    var d := NameEnd(line);
    Glue(line, d, |ValueText(line, d + 3)|);
    UnbrokenIs(line[..d]);
    FieldOfName(CStr(line[..d], NUL), f);
  }

  lemma FieldOfName(name: string, f: Field)
    ensures FieldNamed(name) == Some(f) <==> FieldWord(name, f)
  {
  }

  lemma JoinLine(line: string, name: string, brk: char, digits: string, tail: string, f: Field, v: nat)
    requires Readable(line) && LineSays(line, name, brk, digits, tail, f, v)
    ensures EffectOf(line) == Assign(f, v)
  {
    hide NameOf, FieldNamed, FieldWord, EffectOf, Readable, ValueText, NameEnd, Unbroken;
    UnbrokenIs(name);
    Pieces(name, brk, digits, tail);
    assert (name + [brk] + "= " + digits + tail)[..|name|] == name;
    FieldOfName(CStr(name, NUL), f);
    JoinPieces(line, |name|, digits, f);
  }

  lemma JoinPieces(line: string, d: nat, digits: string, f: Field)
    requires Readable(line) && d + 3 + |digits| <= |line|
    requires IsBreak(line[d]) && forall i :: 0 <= i < d ==> !IsBreak(line[i])
    requires FieldNamed(CStr(line[..d], NUL)) == Some(f)
    requires line[d + 1] == '=' && line[d + 2] == ' ' && line[d + 3..d + 3 + |digits|] == digits
    requires digits != "" && line[d + 3] == digits[0] && Digits(digits) && Value(digits) > 0
    requires At(line, d + 3 + |digits|) == NUL || At(line, d + 3 + |digits|) == '\n'
    ensures EffectOf(line) == Assign(f, Value(digits))
  {
    hide NameOf, FieldNamed, EffectOf, Value, Readable, ValueText, NameEnd, CStr;
    NameEndIs(line, d);
    assert forall i :: 0 <= i < |digits| ==> IsDigit(digits[i]);
    ValueTextIs(line, d + 3, digits);
    ReadableIsShort(line, d, digits);
    ShapeAssigns(line, d, f, digits);
  }

  lemma ReadableIsShort(line: string, d: nat, digits: string)
    requires Readable(line) && NameEnd(line) == d && d + 3 <= |line| && FieldNamed(CStr(line[..d], NUL)).Some?
    requires At(line, d + 1) == '=' && At(line, d + 2) == ' ' && IsDigit(At(line, d + 3))
    requires ValueText(line, d + 3) == digits && Digits(digits)
    ensures 2 <= d && |line| < MAX_FIELD_LENGTH && |digits| < MAX_VALUE_LENGTH
  {
    hide FieldNamed, NameOf, CStr, NameEnd, ValueText, Value;
    assert |CStr(line[..d], NUL)| <= d;
  }

  /** A line of a file: an assignment to be printed, or a line to be skipped. */
  datatype Item = Said(field: Field, value: nat) | Skipped(line: string)

  ghost predicate Writable(item: Item) {
    match item
    case Said(_, n) => 1 <= n < Pow10(19)
    case Skipped(line) =>
      Skips(line) && |line| <= 199 && line[|line| - 1] == '\n' && '\n' !in line[..|line| - 1]
  }

  function PrintItem(item: Item): string {
    match item
    case Said(f, n) => PrintLine(f, n)
    case Skipped(line) => line
  }

  function PrintFile(items: seq<Item>): string {
    if items == [] then "" else PrintItem(items[0]) + PrintFile(items[1..])
  }

  /** What a file says that is printed from `items`. */
  function SaidIn(items: seq<Item>): seq<(Field, nat)> {
    if items == [] then []
    else (if items[0].Said? then [(items[0].field, items[0].value)] else []) + SaidIn(items[1..])
  }

  lemma AcceptedFirst(line: string, rest: string)
    requires line != "" && NextLine(line + rest) == line && Rest(line + rest) == rest
    requires Readable(line) && EffectOf(line) != Reject && ReadableFile(rest)
    ensures ReadableFile(line + rest) && (AllAccepted(line + rest) <==> AllAccepted(rest))
    ensures Accepted(line + rest) ==
            (match EffectOf(line) case Assign(f, n) => [(f, n)] case _ => []) + Accepted(rest)
  {
    hide Readable, EffectOf, NextLine, Rest;
    assert [] + Accepted(rest) == Accepted(rest);
  }

  lemma SkippedLine(line: string, rest: string)
    requires Writable(Skipped(line))
    ensures NextLine(line + rest) == line && Rest(line + rest) == rest
    ensures Readable(line) && EffectOf(line) == Ignore
  {
    NextLineGrammar(line + rest, line);
    SkippedIsReadable(line);
    hide EffectOf, NextLine, Readable;
    OtherLines(line);
  }

  lemma SkippedIsReadable(line: string)
    requires Skips(line) && |line| <= 199
    ensures Readable(line)
  {
    hide FieldNamed, CStr, ValueText, Cached;
    assert NameEnd(line) < 2;
    assert NameEnd(line) < |line|;
  }

  lemma PrintedFirst(item: Item, rest: string)
    requires Writable(item) && ReadableFile(rest)
    ensures var file := PrintItem(item) + rest;
            && ReadableFile(file) && (AllAccepted(file) <==> AllAccepted(rest))
            && Accepted(file) == (if item.Said? then [(item.field, item.value)] else []) + Accepted(rest)
  {
    hide Readable, EffectOf, NextLine, Rest, PrintLine, ReadableFile, AllAccepted, Accepted, Skips;
    match item {
      case Said(f, n) => PrintedLineAssigns(f, n, rest);
      case Skipped(line) => SkippedLine(line, rest);
    }
    AcceptedFirst(PrintItem(item), rest);
  }

  /** What follows the printed lines: nothing, or a line that is rejected and anything after it. */
  ghost predicate Stops(tail: string) {
    tail != "" ==> Readable(NextLine(tail)) && EffectOf(NextLine(tail)) == Reject
  }

  /**
   * Printing assignments and lines to be skipped, and parsing the file, gives the assignments back, up to the
   * first rejected line; all of the file is accepted iff there is no such line.
   */
  lemma {:induction false} PrintParseRoundTrip(items: seq<Item>, tail: string)
    requires (forall item :: item in items ==> Writable(item)) && Stops(tail)
    ensures var file := PrintFile(items) + tail;
            ReadableFile(file) && Accepted(file) == SaidIn(items) && (AllAccepted(file) <==> tail == "")
    decreases |items|
  {
    hide *;
    if items == [] {
      NoItems(tail);
    } else {
      PrintParseRoundTrip(items[1..], tail);
      PrintedFirst(items[0], PrintFile(items[1..]) + tail);
      FirstItem(items, tail);
    }
  }

  lemma NoItems(tail: string)
    requires Stops(tail)
    ensures PrintFile([]) + tail == tail && SaidIn([]) == []
    ensures ReadableFile(tail) && Accepted(tail) == [] && (AllAccepted(tail) <==> tail == "")
  {
    hide Readable, EffectOf, NextLine, Rest;
  }

  lemma FirstItem(items: seq<Item>, tail: string)
    requires items != []
    ensures PrintFile(items) + tail == PrintItem(items[0]) + (PrintFile(items[1..]) + tail)
    ensures SaidIn(items) ==
            (if items[0].Said? then [(items[0].field, items[0].value)] else []) + SaidIn(items[1..])
  {
    hide PrintLine;
  }
}
