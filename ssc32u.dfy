/** The SSC-32U servo board (johnnyv/core/SSC32U.py): the wire format of a
    command batch and the control queries. The serial port itself is an
    oracle: each write either goes through, and is then recorded in `wire`,
    or fails, which the source reports by raising `SerialException`. */
module Board {
  import opened PyValues
  import opened Text

  /** `elem.split(':')` has the three fields `exec_command` reads. */
  predicate Renderable(elem: string) {
    |Split(elem)| >= 3
  }

  /** The rendering of one token `'a:b:c'` on the wire: `' #a Pb Tc'`. */
  function Render(elem: string): string
    requires Renderable(elem)
  {
    var f := Split(elem);
    " #" + f[0] + " P" + f[1] + " T" + f[2]
  }

  /** The tokens rendered one after the other, in list order. */
  function FrameBody(params: seq<string>): string
    requires forall i :: 0 <= i < |params| ==> Renderable(params[i])
  {
    if params == [] then ""
    else FrameBody(params[..|params| - 1]) + Render(params[|params| - 1])
  }

  /** The line sent for a batch of tokens: the rendered tokens, then `' \r'`. */
  function Frame(params: seq<string>): string
    requires forall i :: 0 <= i < |params| ==> Renderable(params[i])
  {
    FrameBody(params) + " \r"
  }

  /** The completion query; the board answers `'.'` once the last move is done. */
  const QueryDone: string := "Q \r"

  /** The command that halts the servo on `pin`. */
  function StopCommand(pin: string): string {
    "STOP " + pin + " \r"
  }

  /** The command that reads register `reg`. */
  function RegisterQuery(reg: int): string {
    "R " + IntToString(reg) + " \r"
  }

  /** A token made of three colon-free fields is rendered from exactly those
      fields, so each `"pin:pulse:time"` token becomes `' #pin Ppulse Ttime'`. */
  lemma RenderToken(a: string, b: string, c: string)
    requires ':' !in a && ':' !in b && ':' !in c
    ensures Renderable(Token(a, b, c))
    ensures Render(Token(a, b, c)) == " #" + a + " P" + b + " T" + c
  {
    SplitToken(a, b, c);
  }

  /** Only the first three fields of a token reach the wire: tokens that agree
      on them render the same, whatever follows a third colon. */
  lemma RenderUsesThreeFields(x: string, y: string)
    requires Renderable(x) && Renderable(y)
    requires Split(x)[..3] == Split(y)[..3]
    ensures Render(x) == Render(y)
  {
    assert Split(x)[0] == Split(x)[..3][0] && Split(x)[1] == Split(x)[..3][1] && Split(x)[2] == Split(x)[..3][2];
    assert Split(y)[0] == Split(y)[..3][0] && Split(y)[1] == Split(y)[..3][1] && Split(y)[2] == Split(y)[..3][2];
  }

  /** Appending a token to a batch appends its rendering before the end of line. */
  lemma FrameSnoc(params: seq<string>, elem: string)
    requires forall i :: 0 <= i < |params| ==> Renderable(params[i])
    requires Renderable(elem)
    ensures Frame(params + [elem]) == FrameBody(params) + Render(elem) + " \r"
  {
    assert (params + [elem])[..|params|] == params;
  }

  /** The rendering of two batches one after the other is the rendering of
      the first followed by that of the second. */
  lemma {:induction false} FrameBodyAppend(a: seq<string>, b: seq<string>)
    requires forall i :: 0 <= i < |a| ==> Renderable(a[i])
    requires forall i :: 0 <= i < |b| ==> Renderable(b[i])
    ensures forall i :: 0 <= i < |a + b| ==> Renderable((a + b)[i])
    ensures FrameBody(a + b) == FrameBody(a) + FrameBody(b)
    decreases |b|
  {
    if b == [] {
      assert a + b == a;
    } else {
      var front := b[..|b| - 1];
      assert (a + b)[..|a + b| - 1] == a + front;
      assert (a + b)[|a + b| - 1] == b[|b| - 1];
      FrameBodyAppend(a, front);
    }
  }

  /** The line for a batch made of two lists is the rendering of the first
      list followed by the line of the second: a token's place in the line
      is its place in the list. */
  lemma FrameAppend(a: seq<string>, b: seq<string>)
    requires forall i :: 0 <= i < |a| ==> Renderable(a[i])
    requires forall i :: 0 <= i < |b| ==> Renderable(b[i])
    ensures forall i :: 0 <= i < |a + b| ==> Renderable((a + b)[i])
    ensures Frame(a + b) == FrameBody(a) + Frame(b)
  {
    FrameBodyAppend(a, b);
  }

  /** The line for a single token. */
  lemma FrameSingle(token: string)
    requires Renderable(token)
    ensures Frame([token]) == Render(token) + " \r"
  {
    FrameSnoc([], token);
    assert [] + [token] == [token];
  }

  /** `str(reg)` determines `reg`. */
  lemma IntToStringInjective(a: int, b: int)
    requires IntToString(a) == IntToString(b)
    ensures a == b
  {
    IntToStringDigits(a);
    IntToStringDigits(b);
    if a < 0 && b < 0 {
      assert NatToString(-a) == IntToString(a)[1..];
      assert NatToString(-b) == IntToString(b)[1..];
      NatToStringRoundTrip(-a);
      NatToStringRoundTrip(-b);
    }
  }

  /** A query names one register: different registers give different commands. */
  lemma RegisterQueryInjective(a: int, b: int)
    requires RegisterQuery(a) == RegisterQuery(b)
    ensures a == b
  {
    var sa, sb := IntToString(a), IntToString(b);
    assert RegisterQuery(a) == "R " + sa + " \r";
    assert |sa| == |sb|;
    assert sa == RegisterQuery(a)[2..2 + |sa|];
    assert sb == RegisterQuery(b)[2..2 + |sb|];
    IntToStringInjective(a, b);
  }

  /** A stop command names one channel. */
  lemma StopCommandInjective(p: string, q: string)
    requires StopCommand(p) == StopCommand(q)
    ensures p == q
  {
    assert p == StopCommand(p)[5..5 + |p|];
    assert q == StopCommand(q)[5..5 + |q|];
  }

  /** The board as the robot sees it through its serial port. */
  class SSC32U {
    /** Whether the serial port is open. */
    var isOpen: bool
    /** Every line written to the board so far, in order. */
    var wire: seq<string>
    /** The last answer read back from the board. */
    var lastReply: string

    constructor (isOpen: bool)
      ensures this.isOpen == isOpen && wire == [] && lastReply == ""
    {
      this.isOpen := isOpen;
      wire := [];
      lastReply := "";
    }

    /** Closes the port if it is open; answers True on every path. */
    method IsClosed() returns (r: bool)
      modifies this`isOpen
      ensures r && !isOpen
    {
      if isOpen {
        isOpen := false;
        return true;
      } else {
        return true;
      }
    }

    /** The oracle for one write: it goes through, and is recorded, or fails. */
    method Transmit(data: string) returns (ok: bool)
      modifies this`wire
      ensures wire == if ok then old(wire) + [data] else old(wire)
    {
      ok := *;
      if ok {
        wire := wire + [data];
      }
    }

    /** The oracle for one read: whatever the board answers. */
    method Receive() returns (answer: string)
      modifies this`lastReply
      ensures answer == lastReply
    {
      answer := *;
      lastReply := answer;
    }

    /** The loop of `exec_command` that accumulates the line for a batch. */
    method BuildFrame(parameters: seq<string>) returns (r: Outcome<string>)
      ensures (forall i :: 0 <= i < |parameters| ==> Renderable(parameters[i])) ==> r == Return(Frame(parameters))
      ensures !(forall i :: 0 <= i < |parameters| ==> Renderable(parameters[i])) ==> r == Raise(IndexError)
    {
      var data := "";
      var i := 0;
      while i < |parameters|
        invariant 0 <= i <= |parameters|
        invariant forall j :: 0 <= j < i ==> Renderable(parameters[j])
        invariant data == FrameBody(parameters[..i])
      {
        var fields := Split(parameters[i]);
        if |fields| < 3 {
          return Raise(IndexError);
        }
        data := data + (" #" + fields[0]) + (" P" + fields[1]) + (" T" + fields[2]);
        assert parameters[..i + 1][..i] == parameters[..i];
        i := i + 1;
      }
      data := data + " \r";
      assert parameters[..i] == parameters;
      return Return(data);
    }

    /** `exec_command`: an empty batch writes nothing and returns None; a
        batch with a token of fewer than three fields raises IndexError
        before writing; otherwise the batch's line is written and the result
        is True, unless the port fails. The port is left closed. */
    method ExecCommand(parameters: seq<string>) returns (r: Outcome<Option<bool>>)
      modifies this`isOpen, this`wire
      ensures parameters == [] ==> r == Return(None) && wire == old(wire) && isOpen == old(isOpen)
      ensures parameters != [] ==> !isOpen
      ensures parameters != [] && !(forall i :: 0 <= i < |parameters| ==> Renderable(parameters[i])) ==>
                r == Raise(IndexError) && wire == old(wire)
      ensures parameters != [] && (forall i :: 0 <= i < |parameters| ==> Renderable(parameters[i])) ==>
                || (r == Return(Some(true)) && wire == old(wire) + [Frame(parameters)])
                || (r == Raise(SerialException) && wire == old(wire))
    {
      if parameters == [] {
        return Return(None);
      }
      var closed := IsClosed();
      if closed {
        var data := BuildFrame(parameters);
        if data.Raise? {
          return Raise(data.exc);
        }
        isOpen := true;
        var ok := Transmit(data.value);
        isOpen := false;
        if ok {
          r := Return(Some(true));
        } else {
          r := Raise(SerialException);
        }
      } else {
        r := Return(None);
      }
    }

    /** `is_done`: sends the completion query and answers whether the reply
        is exactly `'.'`. */
    method IsDone() returns (r: Outcome<Option<bool>>)
      modifies this`isOpen, this`wire, this`lastReply
      ensures !isOpen
      ensures r.Return? ==> wire == old(wire) + [QueryDone] && r.value == Some(lastReply == ".")
      ensures r.Raise? ==> r.exc == SerialException && wire == old(wire)
    {
      var closed := IsClosed();
      if closed {
        isOpen := true;
        var ok := Transmit(QueryDone);
        if !ok {
          isOpen := false;
          return Raise(SerialException);
        }
        var reply := Receive();
        isOpen := false;
        r := Return(Some(reply == "."));
      } else {
        r := Return(None);
      }
    }

    /** `stop_servo`: sends the stop command for `pin` and answers True. */
    method StopServo(pin: string) returns (r: Outcome<Option<bool>>)
      modifies this`isOpen, this`wire
      ensures !isOpen
      ensures r.Return? ==> r.value == Some(true) && wire == old(wire) + [StopCommand(pin)]
      ensures r.Raise? ==> r.exc == SerialException && wire == old(wire)
    {
      var closed := IsClosed();
      if closed {
        isOpen := true;
        var ok := Transmit(StopCommand(pin));
        isOpen := false;
        if ok {
          r := Return(Some(true));
        } else {
          r := Raise(SerialException);
        }
      } else {
        r := Return(None);
      }
    }

    /** `get_val_from_reg`: sends the register query and answers the reply. */
    method GetValFromReg(reg: int) returns (r: Outcome<Option<string>>)
      modifies this`isOpen, this`wire, this`lastReply
      ensures !isOpen
      ensures r.Return? ==> wire == old(wire) + [RegisterQuery(reg)] && r.value == Some(lastReply)
      ensures r.Raise? ==> r.exc == SerialException && wire == old(wire)
    {
      var closed := IsClosed();
      if closed {
        isOpen := true;
        var ok := Transmit(RegisterQuery(reg));
        if !ok {
          isOpen := false;
          return Raise(SerialException);
        }
        var reply := Receive();
        isOpen := false;
        r := Return(Some(reply));
      } else {
        r := Return(None);
      }
    }
  }
}
