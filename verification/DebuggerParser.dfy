/** The parser as an object: text goes in, responses come out. */
module DebuggerParser {
  import opened Wrappers
  import opened DebuggerProtocol

  class Protocol {
    var raw: string
    var headers: map<string, Option<string>>
    var inBody: bool
    var contentLength: Option<int>
    var bodyStart: nat
    var reqSeq: nat
    /** What has been given to `onResponse`. */
    var responses: seq<Response>

    constructor ()
      ensures Now() == Initial()
    {
      raw, headers, inBody, contentLength, bodyStart, reqSeq, responses := "", map[], false, None, 0, 1, [];
    }

    function Now(): State
      reads this
    {
      State(raw, headers, inBody, contentLength, bodyStart, reqSeq, responses)
    }

    /** `limit` is how many more nested calls of `_newRes` the stack has room for; tells whether that is enough. */
    method NewRes(rest: string, limit: nat) returns (ended: bool)
      modifies this
      ensures var s := old(Now()).(raw := rest, headers := map[], inBody := false, reqSeq := 1);
              (ended <==> Resting(Turns(s, limit))) && (ended ==> Now() == Read(Turns(s, limit)))
      decreases limit, 2
    {
      raw := rest;
      headers := map[];
      inBody := false;
      reqSeq := 1;
      assert rest + "" == rest;
      ended := Execute("", limit);
    }

    /** Takes in a piece of text: hands on one response after the other until there is none. */
    method Execute(d: string, limit: nat) returns (ended: bool)
      modifies this
      ensures var s := old(Now()).(raw := old(raw) + d);
              (ended <==> Resting(Turns(s, limit))) && (ended ==> Now() == Read(Turns(s, limit)))
      decreases limit, 1
    {
      hide ParseHeaders, Clamp, Slice;
      raw := raw + d;
      ghost var s := Now();
      if !inBody {
        var endHeader := Find(raw, END, 0);
        if endHeader.None? {
          return true;
        }
        headers := ParseHeaders(raw[..endHeader.value], headers);
        contentLength := ContentLength(headers);
        bodyStart := endHeader.value + 4;
        inBody := true;
        assert Now() == WithHeaders(s, endHeader.value);
        if contentLength.Some? && |raw| - bodyStart < contentLength.value {
          return true;
        }
      }
      assert Now() == Read(s) && Read(Now()) == Now();
      ended := Body(limit);
      SameTurns(s, limit);
    }

    /** The state in which the headers have been read. */
    method Body(limit: nat) returns (ended: bool)
      requires inBody
      modifies this
      ensures (ended <==> Resting(Turns(old(Now()), limit))) && (ended ==> Now() == Read(Turns(old(Now()), limit)))
      decreases limit, 0
    {
      hide ParseHeaders, Clamp, Slice, Turns, Resting, Read;
      ghost var s := Now();
      TurnsInBody(s, limit);
      if contentLength.Some? && |raw| - bodyStart >= contentLength.value {
        if limit == 0 {
          return false;
        }
        var e := bodyStart + contentLength.value;
        var rest := raw[Clamp(e, |raw|)..];
        responses := responses + [Response(headers, Slice(raw, bodyStart, e))];
        assert Now().(raw := rest, headers := map[], inBody := false, reqSeq := 1) == NextResponse(s);
        ended := NewRes(rest, limit - 1);
      } else {
        ended := true;
      }
    }
  }

  lemma TurnsInBody(s: State, n: nat)
    requires s.inBody
    ensures if BodyReady(s) then !Resting(s) && Turns(s, n) == (if n == 0 then s else Turns(NextResponse(s), n - 1))
            else Turns(s, n) == s && Resting(s) && Read(s) == s
  {
    hide ParseHeaders, Find, NextResponse;
  }

  /** Reading the header again changes nothing. */
  lemma SameTurns(s: State, n: nat)
    ensures Resting(Turns(Read(s), n)) <==> Resting(Turns(s, n))
    ensures Resting(Turns(s, n)) ==> Read(Turns(Read(s), n)) == Read(Turns(s, n))
  {
    hide ParseHeaders, Find, NextResponse, WithHeaders;
    SameRead(s);
  }

  lemma SameRead(s: State)
    ensures Read(Read(s)) == Read(s)
  {
    hide ParseHeaders, Find;
  }
}
