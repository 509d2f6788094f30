/** Properties of compiling and running grok expressions, stated over the
    specification functions that the Run methods are proved to compute. */
module GrokProperties {
  import opened Wrappers
  import opened GoText
  import opened Engines
  import opened TypeCast
  import opened Grok

  /** The names table of a capture-name list is unique: every name's index is
      forced to be its last occurrence. */
  lemma NamesTableUnique(captureNames: seq<GoString>, a: map<GoString, nat>, b: map<GoString, nat>)
    requires IsNamesTable(captureNames, a) && IsNamesTable(captureNames, b)
    ensures a == b
  {
  }

  /** A names table never has the empty name as a key, and its indexes are
      valid for every submatch slice with one entry per capture name. */
  lemma NamesTableFits(g: GrokRegexp, captureNames: seq<GoString>, m: seq<GoString>)
    requires IsNamesTable(captureNames, g.names)
    requires |m| == |captureNames|
    ensures [] !in g.names
    ensures g.IndexesFit(m)
  {
  }

  /** CompileGrokRegexp's steps run in order and the first failure is the
      error returned: denormalization, then rure-go, Go's regexp, cre2-go. */
  lemma CompileFailsAtFirstStep(input: GoString, denormalize: GoString -> Result<GrokPattern, Error>, compilers: Compilers)
    ensures denormalize(input).Failure? ==>
      CompileSteps(input, denormalize, compilers) == Failure(denormalize(input).error)
    ensures denormalize(input).Success? ==>
      var p := denormalize(input).value.denormalized;
      && (compilers.rust(p).Failure? ==>
            CompileSteps(input, denormalize, compilers) == Failure(compilers.rust(p).error))
      && (compilers.rust(p).Success? && compilers.std(p).Failure? ==>
            CompileSteps(input, denormalize, compilers) == Failure(compilers.std(p).error))
      && (compilers.rust(p).Success? && compilers.std(p).Success? && compilers.re2(p).Failure? ==>
            CompileSteps(input, denormalize, compilers) == Failure(compilers.re2(p).error))
      && (compilers.rust(p).Success? && compilers.std(p).Success? && compilers.re2(p).Success? ==>
            CompileSteps(input, denormalize, compilers) ==
              Success((denormalize(input).value, compilers.rust(p).value, compilers.std(p).value, compilers.re2(p).value)))
  {
  }

  /** RunStd's outcomes: "not complied" without an engine, an empty map for
      content that is neither a string nor a byte slice, "no match" when the
      engine finds nothing, and otherwise one entry per name holding the text
      of that name's group, trimmed exactly when asked. The string branch
      leaves out the empty name; the byte-slice branch does not. */
  lemma StdOutcomes(g: GrokRegexp, content: Content, trimSpace: bool)
    requires g.StdReady()
    ensures g.reStd.None? ==> g.StdResult(content, trimSpace) == Failure(NotComplied)
    ensures g.reStd.Some? && content.Other? ==> g.StdResult(content, trimSpace) == Success(map[])
    ensures g.reStd.Some? && !content.Other? ==>
      var m := g.reStd.value.findStringSubmatch(GrokRegexp.Text(content));
      var r := g.StdResult(content, trimSpace);
      && (|m| == 0 <==> r == Failure(NoMatch))
      && (|m| != 0 ==>
            && r.Success?
            && (forall n :: n in r.value <==> n in g.names && (content.Bytes? || n != []))
            && (forall n :: n in r.value ==> r.value[n] == Field(m[g.names[n]], trimSpace)))
  {
  }

  /** RunRe2's outcomes, as RunStd's, over the first of cre2-go's matches. */
  lemma Re2Outcomes(g: GrokRegexp, content: Content, trimSpace: bool)
    requires g.Re2Ready()
    ensures g.re2.None? ==> g.Re2Result(content, trimSpace) == Failure(NotComplied)
    ensures g.re2.Some? && content.Other? ==> g.Re2Result(content, trimSpace) == Success(map[])
    ensures g.re2.Some? && !content.Other? ==>
      var matchA := g.re2.value.findAllStringSubmatch(GrokRegexp.Text(content), 1);
      var r := g.Re2Result(content, trimSpace);
      && (|matchA| == 0 <==> r == Failure(NoMatch))
      && (|matchA| != 0 ==>
            && r.Success?
            && (forall n :: n in r.value <==> n in g.names && (content.Bytes? || n != []))
            && (forall n :: n in r.value ==> r.value[n] == Field(matchA[0][g.names[n]], trimSpace)))
  {
  }

  /** RunRust's outcomes: on a match every non-empty name is a key; a group
      that took part maps to the slice of the input it spans (trimmed exactly
      when asked), a group that did not maps to the empty string. */
  lemma RustOutcomes(g: GrokRegexp, content: Content, trimSpace: bool)
    requires g.RustReady()
    ensures g.re.None? ==> g.RustResult(content, trimSpace) == Failure(NotComplied)
    ensures g.re.Some? && content.Other? ==> g.RustResult(content, trimSpace) == Success(map[])
    ensures g.re.Some? && !content.Other? ==>
      var v := GrokRegexp.Text(content);
      var c := g.re.value.captures(v);
      var r := g.RustResult(content, trimSpace);
      && (c.None? <==> r == Failure(NoMatch))
      && (c.Some? ==>
            && r.Success?
            && (forall n :: n in r.value <==> n in g.names && n != [])
            && (forall n | n in r.value ::
                  match Group(c.value, g.names[n])
                  case None => r.value[n] == []
                  case Some(sp) => sp.start <= sp.end <= |v| && r.value[n] == Field(v[sp.start..sp.end], trimSpace)))
  {
  }

  /** With trimming on, every extracted value is trimmed, and it is the
      value extracted with trimming off, passed through TrimSpace. */
  lemma RustTrimToggle(g: GrokRegexp, content: Content)
    requires g.RustReady() && g.re.Some? && !content.Other?
    requires g.re.value.captures(GrokRegexp.Text(content)).Some?
    ensures g.RustResult(content, true).Success? && g.RustResult(content, false).Success?
    ensures forall n :: n in g.RustResult(content, true).value ==> IsTrimmed(g.RustResult(content, true).value[n])
    ensures forall n :: n in g.RustResult(content, true).value ==>
      g.RustResult(content, true).value[n] == TrimSpace(g.RustResult(content, false).value[n])
  {
  }

  /** Because a names table never holds the empty name, the byte-slice and
      string branches of every Run method give the same result for the same
      text. */
  lemma {:induction false} BranchesAgree(g: GrokRegexp, v: GoString, trimSpace: bool)
    requires g.Ready()
    requires [] !in g.names
    ensures g.StdResult(Bytes(v), trimSpace) == g.StdResult(Str(v), trimSpace)
    ensures g.Re2Result(Bytes(v), trimSpace) == g.Re2Result(Str(v), trimSpace)
    ensures g.RustResult(Bytes(v), trimSpace) == g.RustResult(Str(v), trimSpace)
  {
    forall m | g.IndexesFit(m)
      ensures g.SubmatchFields(m, false, trimSpace) == g.SubmatchFields(m, true, trimSpace)
    {
      assert g.SubmatchFields(m, false, trimSpace).Keys == g.SubmatchFields(m, true, trimSpace).Keys;
    }
  }

  /** RunWithTypeInfo forwards RunRust's error unchanged; on success the value
      map has exactly RunRust's keys and the failure map's keys are among them,
      each failure recording the raw text. */
  lemma TypedShape(g: GrokRegexp, content: Content, trimSpace: bool, casts: Casts)
    requires g.RustReady()
    ensures g.RustResult(content, trimSpace).Failure? ==>
      g.TypedResult(content, trimSpace, casts) == Failure(g.RustResult(content, trimSpace).error)
    ensures g.RustResult(content, trimSpace).Success? ==>
      var ret := g.RustResult(content, trimSpace).value;
      var r := g.TypedResult(content, trimSpace, casts);
      && r.Success?
      && r.value.castDst.Keys == ret.Keys
      && r.value.castFail.Keys <= r.value.castDst.Keys
      && (forall k :: k in r.value.castFail ==> r.value.castFail[k] == ret[k])
  {
  }

  /** A field with no declared type, or declared a string, keeps its raw text
      and never appears in the failure map. */
  lemma TypedUntyped(g: GrokRegexp, ret: map<GoString, GoString>, casts: Casts, k: GoString)
    requires k in ret
    requires k !in g.grokPattern.varbType || g.grokPattern.varbType[k] == GTypeStr
    ensures g.TypedFields(ret, casts).castDst[k] == StringValue(ret[k])
    ensures k !in g.TypedFields(ret, casts).castFail
  {
  }

  /** A declared int, float or bool whose conversion fails stores the zero
      value of that type and records the raw text as a failure. */
  lemma TypedFailedCast(g: GrokRegexp, ret: map<GoString, GoString>, casts: Casts, k: GoString)
    requires casts.ZeroOnFailure()
    requires k in ret && k in g.grokPattern.varbType
    requires g.grokPattern.varbType[k] in {GTypeInt, GTypeFloat, GTypeBool}
    requires CastField(ret[k], Some(g.grokPattern.varbType[k]), casts).failed
    ensures g.TypedFields(ret, casts).castDst[k] == Zero(g.grokPattern.varbType[k])
    ensures k in g.TypedFields(ret, casts).castFail
    ensures g.TypedFields(ret, casts).castFail[k] == ret[k]
  {
  }

  /** A declared int, float or bool whose conversion succeeds stores the
      converted value and is not a failure. */
  lemma TypedConverted(g: GrokRegexp, ret: map<GoString, GoString>, casts: Casts, k: GoString)
    requires k in ret && k in g.grokPattern.varbType
    ensures g.grokPattern.varbType[k] == GTypeInt && !casts.toInt64(ret[k]).failed ==>
      g.TypedFields(ret, casts).castDst[k] == Int64Value(casts.toInt64(ret[k]).value) &&
      k !in g.TypedFields(ret, casts).castFail
    ensures g.grokPattern.varbType[k] == GTypeFloat && !casts.toFloat64(ret[k]).failed ==>
      g.TypedFields(ret, casts).castDst[k] == Float64Value(casts.toFloat64(ret[k]).value) &&
      k !in g.TypedFields(ret, casts).castFail
    ensures g.grokPattern.varbType[k] == GTypeBool && !casts.toBool(ret[k]).failed ==>
      g.TypedFields(ret, casts).castDst[k] == BoolValue(casts.toBool(ret[k]).value) &&
      k !in g.TypedFields(ret, casts).castFail
  {
  }

  /** A field is in the failure map exactly when it has a declared type and
      either that type is not one of the four known ones or its converter
      reported an error. */
  lemma CastFailIff(g: GrokRegexp, ret: map<GoString, GoString>, casts: Casts, k: GoString)
    requires k in ret
    ensures k in g.TypedFields(ret, casts).castFail <==>
      && k in g.grokPattern.varbType
      && match g.grokPattern.varbType[k]
         case GTypeStr => false
         case GTypeInt => casts.toInt64(ret[k]).failed
         case GTypeFloat => casts.toFloat64(ret[k]).failed
         case GTypeBool => casts.toBool(ret[k]).failed
         case Unknown(_) => true
  {
  }

  /** An unsupported type tag keeps the raw text and records it as a failure. */
  lemma TypedUnknownTag(g: GrokRegexp, ret: map<GoString, GoString>, casts: Casts, k: GoString)
    requires k in ret && k in g.grokPattern.varbType && g.grokPattern.varbType[k].Unknown?
    ensures g.TypedFields(ret, casts).castDst[k] == StringValue(ret[k])
    ensures k in g.TypedFields(ret, casts).castFail
    ensures g.TypedFields(ret, casts).castFail[k] == ret[k]
  {
  }
}
