/**
 * `CorrelationIdMiddleware`: keeps the caller's `X-Correlation-Id` or makes a new one,
 * and echoes it to the response and to `HttpContext.Items` before calling the next delegate.
 */
module CorrelationId {
  import opened Text
  import opened Http

  const HeaderName := "X-Correlation-Id"

  predicate IsLowerHexDigit(c: char)
  {
    '0' <= c <= '9' || 'a' <= c <= 'f'
  }

  /** The text of `Guid.NewGuid().ToString("N")`: 32 lower-case hexadecimal digits. */
  type GuidN = s: string | |s| == 32 && forall i :: 0 <= i < |s| ==> IsLowerHexDigit(s[i])
    witness "00000000000000000000000000000000"

  /** The id kept or created for a request. */
  function Resolve(requestHeaders: Headers, newId: GuidN): string
  {
    if HeaderName in requestHeaders && !IsWhiteSpace(requestHeaders[HeaderName])
    then requestHeaders[HeaderName]
    else newId
  }

  /** A non-blank id from the caller is kept; otherwise the new one is used. */
  lemma ResolveKeepsCallerId(requestHeaders: Headers, newId: GuidN)
    ensures (HeaderName in requestHeaders && !IsWhiteSpace(requestHeaders[HeaderName])) <==>
      (HeaderName in requestHeaders && Resolve(requestHeaders, newId) == requestHeaders[HeaderName]
       && !IsWhiteSpace(Resolve(requestHeaders, newId)))
    ensures !(HeaderName in requestHeaders && !IsWhiteSpace(requestHeaders[HeaderName])) ==>
      Resolve(requestHeaders, newId) == newId
  {
  }

  /** Whatever the request carried, the id is never blank. */
  lemma ResolvedIsNeverBlank(requestHeaders: Headers, newId: GuidN)
    ensures !IsWhiteSpace(Resolve(requestHeaders, newId))
  {
    if Resolve(requestHeaders, newId) == newId {
      assert IsLowerHexDigit(newId[0]) && !IsWhiteSpaceChar(newId[0]);
    }
  }

  /**
   * `InvokeAsync`. `newId` stands for `Guid.NewGuid().ToString("N")`. The request header
   * is written only when a new id is made; the response header is overwritten.
   */
  method InvokeAsync(context: HttpContext, newId: GuidN)
    modifies context
    ensures var cid := Resolve(old(context.requestHeaders), newId);
      && context.requestHeaders == old(context.requestHeaders)[HeaderName := cid]
      && context.responseHeaders == old(context.responseHeaders)[HeaderName := cid]
      && context.items == old(context.items)[HeaderName := cid]
    ensures HeaderName in old(context.requestHeaders) && !IsWhiteSpace(old(context.requestHeaders)[HeaderName]) ==>
      context.requestHeaders == old(context.requestHeaders)
    ensures context.hasStarted == old(context.hasStarted)
    ensures context.nextCalls == old(context.nextCalls) + [context.State()]
  {
    var cid: string;
    if HeaderName !in context.requestHeaders || IsWhiteSpace(context.requestHeaders[HeaderName]) {
      cid := newId;
      context.requestHeaders := context.requestHeaders[HeaderName := cid];
    } else {
      cid := context.requestHeaders[HeaderName];
    }
    context.responseHeaders := context.responseHeaders[HeaderName := cid];
    context.items := context.items[HeaderName := cid];
    context.Next();
  }
}
