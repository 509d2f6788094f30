/** Grok patterns denormalized into regular expressions, compiled with three
    engines, and run against text to extract named fields, optionally typed. */
module Grok {
  import opened Wrappers
  import opened GoText
  import opened Engines
  import opened TypeCast

  /** The denormalizer's output: the expanded regular expression and the
      declared type of each field. */
  datatype GrokPattern = GrokPattern(denormalized: GoString, varbType: map<GoString, GType>)

  /** The dynamic content a Run method is given: a string, a byte slice, or a
      value of any other Go type. */
  datatype Content = Str(s: GoString) | Bytes(b: seq<Byte>) | Other

  /** A field's extracted text, trimmed when asked to. */
  function Field(raw: GoString, trimSpace: bool): GoString {
    if trimSpace then TrimSpace(raw) else raw
  }

  /** `names` is the table built from a regex's capture names: every non-empty
      capture name, mapped to the index of its last occurrence. */
  ghost predicate IsNamesTable(captureNames: seq<GoString>, names: map<GoString, nat>) {
    && (forall n :: n in names <==> n != [] && n in captureNames)
    && (forall n :: n in names ==> names[n] < |captureNames| && captureNames[names[n]] == n)
    && (forall n, j :: n in names && names[n] < j < |captureNames| ==> captureNames[j] != n)
  }

  /** The names loop of CompileGrokRegexp: unnamed groups are skipped, and a
      name that occurs twice keeps its later index. */
  method BuildNames(captureNames: seq<GoString>) returns (names: map<GoString, nat>)
    ensures IsNamesTable(captureNames, names)
  {
    names := map[];
    var index := 0;
    while index < |captureNames|
      invariant 0 <= index <= |captureNames|
      invariant forall n :: n in names <==> n != [] && n in captureNames[..index]
      invariant forall n :: n in names ==> names[n] < index && captureNames[names[n]] == n
      invariant forall n, j :: n in names && names[n] < j < index ==> captureNames[j] != n
    {
      var name := captureNames[index];
      if name != [] {
        names := names[name := index];
      }
      assert captureNames[..index + 1] == captureNames[..index] + [name];
      index := index + 1;
    }
    assert captureNames[..index] == captureNames;
  }

  /** A compiled grok expression. Its fields never change once it is built. */
  class GrokRegexp {
    const grokPattern: GrokPattern
    const re: Option<RustRegex>
    const reStd: Option<StdRegexp>
    const re2: Option<Re2Regexp>
    const names: map<GoString, nat>

    /** The struct literal: any combination of fields, including absent engines. */
    constructor (grokPattern: GrokPattern, re: Option<RustRegex>, reStd: Option<StdRegexp>,
                 re2: Option<Re2Regexp>, names: map<GoString, nat>)
      ensures this.grokPattern == grokPattern && this.re == re && this.reStd == reStd
      ensures this.re2 == re2 && this.names == names
    {
      this.grokPattern := grokPattern;
      this.re := re;
      this.reStd := reStd;
      this.re2 := re2;
      this.names := names;
    }

    /** Every index in `names` has an entry in the submatch slice `m`. */
    predicate IndexesFit(m: seq<GoString>) {
      forall n :: n in names ==> names[n] < |m|
    }

    /** RunStd can index every submatch slice Go's regexp returns. */
    ghost predicate StdReady() {
      reStd.Some? ==>
        forall text :: |reStd.value.findStringSubmatch(text)| != 0 ==>
          IndexesFit(reStd.value.findStringSubmatch(text))
    }

    /** RunRe2 can index the first match cre2-go returns. */
    ghost predicate Re2Ready() {
      re2.Some? ==>
        forall text :: |re2.value.findAllStringSubmatch(text, 1)| != 0 ==>
          IndexesFit(re2.value.findAllStringSubmatch(text, 1)[0])
    }

    /** RunRust can slice the text at every span rure-go reports. */
    ghost predicate RustReady() {
      re.Some? ==> re.value.SpansInBounds()
    }

    /** Every Run method can be called without a Go runtime panic. */
    ghost predicate Ready() {
      StdReady() && Re2Ready() && RustReady()
    }

    /** The map built from a submatch slice: each name's group text. With
        `skipEmpty` (the string branch) the empty name is left out. */
    function SubmatchFields(m: seq<GoString>, skipEmpty: bool, trimSpace: bool): map<GoString, GoString>
      requires IndexesFit(m)
    {
      map n | n in names && (!skipEmpty || n != []) :: Field(m[names[n]], trimSpace)
    }

    /** The text a Run method searches: a byte slice is converted to a
        string without change; other content is never searched. */
    static function Text(content: Content): GoString {
      match content
      case Str(v) => v
      case Bytes(v) => v
      case Other => []
    }

    /** The result of RunStd and RunRe2 once their engine searched `content`
        and found the submatch slice `found`, or None when nothing matched. */
    function SubmatchResult(content: Content, found: Option<seq<GoString>>, trimSpace: bool): Result<map<GoString, GoString>, Error>
      requires found.Some? ==> IndexesFit(found.value)
    {
      match content
      case Other => Success(map[])
      case Bytes(_) => if found.None? then Failure(NoMatch) else Success(SubmatchFields(found.value, false, trimSpace))
      case Str(_) => if found.None? then Failure(NoMatch) else Success(SubmatchFields(found.value, true, trimSpace))
    }

    /** Go's regexp reports no match with an empty slice. */
    static function StdFind(r: StdRegexp, text: GoString): Option<seq<GoString>> {
      var m := r.findStringSubmatch(text);
      if |m| == 0 then None else Some(m)
    }

    /** What RunStd returns. */
    function StdResult(content: Content, trimSpace: bool): Result<map<GoString, GoString>, Error>
      requires StdReady()
    {
      match reStd
      case None => Failure(NotComplied)
      case Some(r) => SubmatchResult(content, StdFind(r, Text(content)), trimSpace)
    }

    /** cre2-go's first match, the only one asked for and the only one used. */
    static function Re2Find(r: Re2Regexp, text: GoString): Option<seq<GoString>> {
      var matchA := r.findAllStringSubmatch(text, 1);
      if |matchA| == 0 then None else Some(matchA[0])
    }

    /** What RunRe2 returns. */
    function Re2Result(content: Content, trimSpace: bool): Result<map<GoString, GoString>, Error>
      requires Re2Ready()
    {
      match re2
      case None => Failure(NotComplied)
      case Some(r) => SubmatchResult(content, Re2Find(r, Text(content)), trimSpace)
    }

    /** One named group's value in RunRust: the (trimmed) text it matched, or
        the empty string when it took no part in the match. */
    static function CaptureField(v: GoString, g: Option<Span>, trimSpace: bool): GoString
      requires g.Some? ==> g.value.start <= g.value.end <= |v|
    {
      match g
      case Some(sp) => Field(v[sp.start..sp.end], trimSpace)
      case None => []
    }

    /** rure-go's spans for one text all lie within it. */
    static predicate GroupsInBounds(v: GoString, groups: seq<Option<Span>>) {
      forall i :: 0 <= i < |groups| && groups[i].Some? ==> groups[i].value.start <= groups[i].value.end <= |v|
    }

    /** The map RunRust builds from one match: every non-empty name. */
    function CaptureFields(v: GoString, groups: seq<Option<Span>>, trimSpace: bool): map<GoString, GoString>
      requires GroupsInBounds(v, groups)
    {
      map n | n in names && n != [] :: CaptureField(v, Group(groups, names[n]), trimSpace)
    }

    /** What RunRust returns. */
    function RustResult(content: Content, trimSpace: bool): Result<map<GoString, GoString>, Error>
      requires RustReady()
    {
      match re
      case None => Failure(NotComplied)
      case Some(r) =>
        match content
        case Other => Success(map[])
        case Bytes(v) => if r.captures(v).None? then Failure(NoMatch) else Success(CaptureFields(v, r.captures(v).value, trimSpace))
        case Str(v) => if r.captures(v).None? then Failure(NoMatch) else Success(CaptureFields(v, r.captures(v).value, trimSpace))
    }

    /** The declared type of a field, if any. */
    function DeclaredType(k: GoString): Option<GType> {
      if k in grokPattern.varbType then Some(grokPattern.varbType[k]) else None
    }

    /** What RunWithTypeInfo returns for the fields RunRust extracted. */
    function TypedFields(ret: map<GoString, GoString>, casts: Casts): Typed {
      Typed(map k | k in ret :: CastField(ret[k], DeclaredType(k), casts).value,
            map k | k in ret && CastField(ret[k], DeclaredType(k), casts).failed :: ret[k])
    }

    /** What RunWithTypeInfo returns. */
    function TypedResult(content: Content, trimSpace: bool, casts: Casts): Result<Typed, Error>
      requires RustReady()
    {
      match RustResult(content, trimSpace)
      case Failure(e) => Failure(e)
      case Success(ret) => Success(TypedFields(ret, casts))
    }

    /** The loop shared by RunStd and RunRe2 over `names`. */
    method CollectSubmatches(m: seq<GoString>, skipEmpty: bool, trimSpace: bool) returns (result: map<GoString, GoString>)
      requires IndexesFit(m)
      ensures result == SubmatchFields(m, skipEmpty, trimSpace)
    {
      result := map[];
      var todo := names.Keys;
      while todo != {}
        invariant todo <= names.Keys
        invariant forall n :: n in result <==> n in names && n !in todo && (!skipEmpty || n != [])
        invariant forall n :: n in result ==> result[n] == Field(m[names[n]], trimSpace)
        decreases todo
      {
        var name :| name in todo;
        if !skipEmpty || name != [] {
          result := result[name := Field(m[names[name]], trimSpace)];
        }
        todo := todo - {name};
      }
    }

    method RunStd(content: Content, trimSpace: bool) returns (r: Result<map<GoString, GoString>, Error>)
      requires StdReady()
      ensures r == StdResult(content, trimSpace)
    {
      if reStd.None? {
        return Failure(NotComplied);
      }
      match content {
        case Bytes(v) =>
          var m := reStd.value.findStringSubmatch(v);
          if |m| == 0 {
            return Failure(NoMatch);
          }
          var result := CollectSubmatches(m, false, trimSpace);
          r := Success(result);
        case Str(v) =>
          var m := reStd.value.findStringSubmatch(v);
          if |m| == 0 {
            return Failure(NoMatch);
          }
          var result := CollectSubmatches(m, true, trimSpace);
          r := Success(result);
        case Other =>
          r := Success(map[]);
      }
    }

    method RunRe2(content: Content, trimSpace: bool) returns (r: Result<map<GoString, GoString>, Error>)
      requires Re2Ready()
      ensures r == Re2Result(content, trimSpace)
    {
      if re2.None? {
        return Failure(NotComplied);
      }
      match content {
        case Bytes(v) =>
          var matchA := re2.value.findAllStringSubmatch(v, 1);
          if |matchA| == 0 {
            return Failure(NoMatch);
          }
          var result := CollectSubmatches(matchA[0], false, trimSpace);
          r := Success(result);
        case Str(v) =>
          var matchA := re2.value.findAllStringSubmatch(v, 1);
          if |matchA| == 0 {
            return Failure(NoMatch);
          }
          var result := CollectSubmatches(matchA[0], true, trimSpace);
          r := Success(result);
        case Other =>
          r := Success(map[]);
      }
    }

    /** The loop of RunRust over `names`, for one match of `v`. */
    method CollectCaptures(v: GoString, groups: seq<Option<Span>>, trimSpace: bool) returns (result: map<GoString, GoString>)
      requires GroupsInBounds(v, groups)
      ensures result == CaptureFields(v, groups, trimSpace)
    {
      result := map[];
      var todo := names.Keys;
      while todo != {}
        invariant todo <= names.Keys
        invariant forall n :: n in result <==> n in names && n !in todo && n != []
        invariant forall n :: n in result ==> result[n] == CaptureField(v, Group(groups, names[n]), trimSpace)
        decreases todo
      {
        var name :| name in todo;
        if name != [] {
          var g := Group(groups, names[name]);
          if g.Some? {
            var s, e := g.value.start, g.value.end;
            if trimSpace {
              result := result[name := TrimSpace(v[s..e])];
            } else {
              result := result[name := v[s..e]];
            }
          } else {
            result := result[name := []];
          }
        }
        todo := todo - {name};
      }
    }

    method RunRust(content: Content, trimSpace: bool) returns (r: Result<map<GoString, GoString>, Error>)
      requires RustReady()
      ensures r == RustResult(content, trimSpace)
    {
      if re.None? {
        return Failure(NotComplied);
      }
      match content {
        case Bytes(v) =>
          var c := re.value.captures(v);
          if c.None? {
            return Failure(NoMatch);
          }
          var result := CollectCaptures(v, c.value, trimSpace);
          r := Success(result);
        case Str(v) =>
          var c := re.value.captures(v);
          if c.None? {
            return Failure(NoMatch);
          }
          var result := CollectCaptures(v, c.value, trimSpace);
          r := Success(result);
        case Other =>
          r := Success(map[]);
      }
    }

    /** The type switch of RunWithTypeInfo for one field `k` with raw text `v`. */
    method CastOne(k: GoString, v: GoString, casts: Casts) returns (dstV: Value, failed: bool)
      ensures Converted(dstV, failed) == CastField(v, DeclaredType(k), casts)
    {
      dstV, failed := StringValue(v), false;
      if k in grokPattern.varbType {
        match grokPattern.varbType[k] {
          case GTypeInt =>
            var c := casts.toInt64(v);
            dstV, failed := Int64Value(c.value), c.failed;
          case GTypeFloat =>
            var c := casts.toFloat64(v);
            dstV, failed := Float64Value(c.value), c.failed;
          case GTypeBool =>
            var c := casts.toBool(v);
            dstV, failed := BoolValue(c.value), c.failed;
          case GTypeStr =>
          case Unknown(_) =>
            failed := true;
        }
      }
    }

    /** The loop of RunWithTypeInfo over the fields RunRust extracted. */
    method CastAll(ret: map<GoString, GoString>, casts: Casts) returns (t: Typed)
      ensures t == TypedFields(ret, casts)
    {
      var castDst: map<GoString, Value> := map[];
      var castFail: map<GoString, GoString> := map[];
      var todo := ret.Keys;
      while todo != {}
        invariant todo <= ret.Keys
        invariant forall k :: k in castDst <==> k in ret && k !in todo
        invariant forall k :: k in castDst ==> castDst[k] == CastField(ret[k], DeclaredType(k), casts).value
        invariant forall k :: k in castFail <==> k in castDst && CastField(ret[k], DeclaredType(k), casts).failed
        invariant forall k :: k in castFail ==> castFail[k] == ret[k]
        decreases todo
      {
        var k :| k in todo;
        var v := ret[k];
        var dstV, failed := CastOne(k, v, casts);
        castDst := castDst[k := dstV];
        if failed {
          castFail := castFail[k := v];
        }
        todo := todo - {k};
      }
      t := Typed(castDst, castFail);
    }

    method RunWithTypeInfo(content: Content, trimSpace: bool, casts: Casts) returns (r: Result<Typed, Error>)
      requires RustReady()
      ensures r == TypedResult(content, trimSpace, casts)
    {
      var ret := RunRust(content, trimSpace);
      if ret.Failure? {
        return Failure(ret.error);
      }
      var t := CastAll(ret.value, casts);
      r := Success(t);
    }
  }

  /** RunWithTypeInfo's two maps: each field's stored value, and the raw text
      of each field whose conversion failed. */
  datatype Typed = Typed(castDst: map<GoString, Value>, castFail: map<GoString, GoString>)

  /** The steps of CompileGrokRegexp that can fail, in order; the first
      failure is the result. */
  function CompileSteps(input: GoString, denormalize: GoString -> Result<GrokPattern, Error>, compilers: Compilers)
    : Result<(GrokPattern, RustRegex, StdRegexp, Re2Regexp), Error>
  {
    var gP :- denormalize(input);
    var re :- compilers.rust(gP.denormalized);
    var reStd :- compilers.std(gP.denormalized);
    var reRe2 :- compilers.re2(gP.denormalized);
    Success((gP, re, reStd, reRe2))
  }

  /** CompileGrokRegexp: `denormalize` is DenormalizePattern with its pattern
      store fixed. */
  method CompileGrokRegexp(input: GoString, denormalize: GoString -> Result<GrokPattern, Error>, compilers: Compilers)
    returns (r: Result<GrokRegexp, Error>)
    ensures r.Failure? <==> CompileSteps(input, denormalize, compilers).Failure?
    ensures r.Failure? ==> r.error == CompileSteps(input, denormalize, compilers).error
    ensures r.Success? ==>
      var (gP, re, reStd, reRe2) := CompileSteps(input, denormalize, compilers).value;
      && r.value.grokPattern == gP
      && r.value.re == Some(re) && r.value.reStd == Some(reStd) && r.value.re2 == Some(reRe2)
      && IsNamesTable(re.captureNames, r.value.names)
    ensures r.Success? && Consistent(compilers) ==> r.value.Ready()
  {
    var gP := denormalize(input);
    if gP.Failure? {
      return Failure(gP.error);
    }
    var re := compilers.rust(gP.value.denormalized);
    if re.Failure? {
      return Failure(re.error);
    }
    var names := BuildNames(re.value.captureNames);
    var reStd := compilers.std(gP.value.denormalized);
    if reStd.Failure? {
      return Failure(reStd.error);
    }
    var reRe2 := compilers.re2(gP.value.denormalized);
    if reRe2.Failure? {
      return Failure(reRe2.error);
    }
    var g := new GrokRegexp(gP.value, Some(re.value), Some(reStd.value), Some(reRe2.value), names);
    r := Success(g);
  }
}
