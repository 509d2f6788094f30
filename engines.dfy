/** The collaborators grok.go calls but does not implement: the three regular
    expression engines (rure-go, Go's regexp, cre2-go), the pattern
    denormalizer, and Go's error values. Each engine is an opaque value whose
    behaviour is given as a function, so the model does not depend on how it
    matches. */
module Engines {
  import opened Wrappers
  import opened GoText

  /** Go errors as grok.go produces or forwards them: its own "not complied"
      and "no match" errors, and an error raised by a collaborator. */
  datatype Error = NotComplied | NoMatch | Foreign(message: GoString)

  /** The byte span [start, end) that a capture group matched. */
  datatype Span = Span(start: nat, end: nat)

  /** A compiled rure-go regex: the capture names in group order (an unnamed
      group, such as group 0, has the empty name) and the search that fills a
      Captures value, None when the input does not match. */
  datatype RustRegex = RustRegex(
    captureNames: seq<GoString>,
    captures: GoString -> Option<seq<Option<Span>>>)
  {
    /** rure-go's promise that every span it reports lies within the text. */
    ghost predicate SpansInBounds() {
      forall text, i {:trigger captures(text).value[i]} ::
        captures(text).Some? && 0 <= i < |captures(text).value| && captures(text).value[i].Some? ==>
          captures(text).value[i].value.start <= captures(text).value[i].value.end <= |text|
    }
  }

  /** Captures.Group(index): the span of a group that took part in the match,
      None for a group that did not, or for an index with no group. */
  function Group(groups: seq<Option<Span>>, index: int): Option<Span> {
    if 0 <= index < |groups| then groups[index] else None
  }

  /** A compiled Go regexp: FindStringSubmatch, which returns the whole match
      and every group's text, or an empty slice when there is no match. */
  datatype StdRegexp = StdRegexp(findStringSubmatch: GoString -> seq<GoString>)

  /** A compiled cre2-go regexp: FindAllStringSubmatch(text, n), at most n
      matches each with its groups' text. */
  datatype Re2Regexp = Re2Regexp(findAllStringSubmatch: (GoString, int) -> seq<seq<GoString>>)

  /** The three engines' Compile functions. */
  datatype Compilers = Compilers(
    rust: GoString -> Result<RustRegex, Error>,
    std: GoString -> Result<StdRegexp, Error>,
    re2: GoString -> Result<Re2Regexp, Error>)

  /** What the engines guarantee when they compiled the same pattern: rure-go's
      spans lie within the text, and the other two engines report one text per
      capture group, as many as rure-go has capture names. */
  ghost predicate Agree(rust: RustRegex, std: StdRegexp, re2: Re2Regexp) {
    && rust.SpansInBounds()
    && (forall text :: |std.findStringSubmatch(text)| == 0 ||
                       |std.findStringSubmatch(text)| == |rust.captureNames|)
    && (forall text :: |re2.findAllStringSubmatch(text, 1)| == 0 ||
                       |re2.findAllStringSubmatch(text, 1)[0]| == |rust.captureNames|)
  }

  /** The engines agree on every pattern that all three accept. */
  ghost predicate Consistent(c: Compilers) {
    forall p :: c.rust(p).Success? && c.std(p).Success? && c.re2(p).Success? ==>
      Agree(c.rust(p).value, c.std(p).value, c.re2(p).value)
  }
}
