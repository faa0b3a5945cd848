/** The request and reply link between the server and the DDS driver. */
module DdsLink {
  import opened Common

  datatype Kind = RegisterSeq | RxfeSettings | CtrlProgReady | CtrlProgEnd | Pretrigger

  /** What one send or receive call moves: a message header, a parameter block, a sequence index,
      a sequence header with the length of the two blocks after it, a front-end setting, or one
      byte of a block. */
  datatype Field =
    | Header(kind: Kind)
    | Params(client: int)
    | Index(index: int)
    | SeqHeader(len: nat, step: int)
    | Setting(value: int)
    | Data(byte: Byte)

  /** One request with everything that goes with it. */
  datatype Request =
    | Register(client: int, index: int, step: int, rep: seq<Byte>, code: seq<Byte>)
    | Settings(ifmode: int, rf: int, ifs: int)
    | Ready(client: int)
    | End
    | Trigger
  {
    /** The two blocks of a sequence have the length its header gives. */
    predicate Valid() { Register? ==> |rep| == |code| }
    predicate Replied() { !End? }
  }

  function Block(bytes: seq<Byte>): (r: seq<Field>)
    ensures |r| == |bytes|
  {
    seq(|bytes|, i requires 0 <= i < |bytes| => Data(bytes[i]))
  }

  /** The fields the server sends for a request, in order. */
  function Sent(r: Request): seq<Field> {
    match r
    case Register(c, i, step, rep, code) =>
      [Header(RegisterSeq), Params(c), Index(i), SeqHeader(|rep|, step)] + Block(rep) + Block(code)
    case Settings(m, rf, ifs) => [Header(RxfeSettings), Setting(m), Setting(rf), Setting(ifs)]
    case Ready(c) => [Header(CtrlProgReady), Params(c)]
    case End => [Header(CtrlProgEnd)]
    case Trigger => [Header(Pretrigger)]
  }

  /** Where the fields of a registration are: header, parameters, index and sequence header, then the
      repeat counts, then the codes. */
  lemma SentIs(r: Request)
    requires r.Register? && r.Valid()
    ensures var f, n := Sent(r), |r.rep|;
            && |f| == 4 + 2 * n && f[0] == Header(RegisterSeq) && f[1] == Params(r.client) && f[2] == Index(r.index)
            && f[3] == SeqHeader(n, r.step)
            && forall i :: 0 <= i < n ==> f[4 + i] == Data(r.rep[i]) && f[4 + n + i] == Data(r.code[i])
  {
  }

  function AllSent(rs: seq<Request>): seq<Field> {
    if rs == [] then [] else Sent(rs[0]) + AllSent(rs[1..])
  }

  lemma {:induction false} AllSentAppend(rs: seq<Request>, r: Request)
    ensures AllSent(rs + [r]) == AllSent(rs) + Sent(r)
  {
    if rs == [] {
      assert rs + [r] == [r] && AllSent([]) == [];
    } else {
      assert (rs + [r])[1..] == rs[1..] + [r];
      AllSentAppend(rs[1..], r);
    }
  }

  /** What follows the header of a registration. */
  lemma SentSeq(r: Request, rest: seq<Field>)
    requires r.Valid() && r.Register?
    ensures var head := [Params(r.client), Index(r.index), SeqHeader(|r.rep|, r.step)];
            var all := Sent(r)[1..] + rest;
            |all| >= 3 && all[..3] == head && all[3..] == Block(r.rep) + (Block(r.code) + rest)
  {
  }

  /** Both ends of the socket. */
  class Link {
    var toDriver: seq<Field>
    var toServer: seq<Field>
    /** Requests sent, requests the driver has served, and the driver's replies. */
    ghost var asked: seq<Request>
    ghost var served: seq<Request>

    /** The driver is behind by whole requests only. */
    ghost predicate InStep()
      reads this
    {
      && |served| <= |asked| && served == asked[..|served|]
      && toDriver == AllSent(asked[|served|..])
      && (forall r :: r in asked ==> r.Valid())
    }

    /** Between exchanges nothing is on its way to the server, and only headers of requests that
        need no reply may be on their way to the driver. */
    ghost predicate Quiet()
      reads this
    {
      InStep() && toServer == [] && forall r :: r in asked[|served|..] ==> r.End?
    }

    constructor ()
      ensures Quiet() && asked == [] && served == []
    {
      toDriver, toServer, asked, served := [], [], [], [];
    }

    /** Take one field off the driver's end. */
    method Take() returns (f: Field)
      requires toDriver != []
      modifies `toDriver
      ensures f == old(toDriver)[0] && toDriver == old(toDriver)[1..]
    {
      f := toDriver[0];
      toDriver := toDriver[1..];
    }

    /** Take a block of n bytes off the driver's end. */
    method TakeBlock(n: nat, ghost bytes: seq<Byte>, ghost rest: seq<Field>) returns (b: seq<Byte>)
      requires n == |bytes| && toDriver == Block(bytes) + rest
      modifies `toDriver
      ensures b == bytes && toDriver == rest
    {
      b := [];
      while |b| < n
        invariant |b| <= n && b == bytes[..|b|] && toDriver == Block(bytes)[|b|..] + rest
        decreases n - |b|
      {
        var f := Take();
        assert f == Data(bytes[|b|]);
        b := b + [f.byte];
      }
      assert Block(bytes)[|b|..] + rest == rest;
    }

    /** The driver's message switch: read one request and reply if it is one that is replied to. */
    method Serve() returns (r: Request)
      requires InStep() && |served| < |asked|
      modifies this
      ensures InStep() && asked == old(asked) && r == old(asked[|served|]) && served == old(served) + [r]
      ensures toServer == old(toServer) + if r.Replied() then [Header(KindOf(r))] else []
    {
      ghost var next, rest := asked[|served|], AllSent(asked[|served| + 1..]);
      assert asked[|served|..][1..] == asked[|served| + 1..];
      assert toDriver == Sent(next) + rest;
      r := Receive(next, rest);
      if r.Replied() { toServer := toServer + [Header(KindOf(r))]; }
      served := served + [r];
    }

    method Receive(ghost next: Request, ghost rest: seq<Field>) returns (r: Request)
      requires next.Valid() && toDriver == Sent(next) + rest
      modifies `toDriver
      ensures r == next && toDriver == rest
    {
      var h := Take();
      match h.kind {
        case RegisterSeq =>
          r := ReceiveSeq(next, rest);
        case RxfeSettings =>
          var m := Take();
          var rf := Take();
          var ifs := Take();
          assert toDriver == rest;
          r := Settings(m.value, rf.value, ifs.value);
        case CtrlProgReady =>
          var c := Take();
          assert toDriver == rest;
          r := Ready(c.client);
        case CtrlProgEnd =>
          assert toDriver == rest;
          r := End;
        case Pretrigger =>
          assert toDriver == rest;
          r := Trigger;
      }
    }

    /** Take three fields off the driver's end. */
    method TakeThree(ghost rest: seq<Field>) returns (a: Field, b: Field, c: Field)
      requires |toDriver| >= 3 && rest == toDriver[3..]
      modifies `toDriver
      ensures [a, b, c] == old(toDriver)[..3] && toDriver == rest
    {
      a := Take();
      b := Take();
      c := Take();
    }

    /** The rest of a registration: parameters, index, header and the two blocks. */
    method ReceiveSeq(ghost next: Request, ghost rest: seq<Field>) returns (r: Request)
      requires next.Valid() && next.Register?
      requires toDriver == Sent(next)[1..] + rest
      modifies `toDriver
      ensures r == next && toDriver == rest
    {
      SentSeq(next, rest);
      ghost var codes := Block(next.code) + rest;
      var c, i, s := TakeThree(Block(next.rep) + codes);
      assert [c, i, s] == [Params(next.client), Index(next.index), SeqHeader(|next.rep|, next.step)];
      var rep := TakeBlock(s.len, next.rep, codes);
      var code := TakeBlock(s.len, next.code, rest);
      r := Register(c.client, i.index, s.step, rep, code);
    }

    /** Put a request on the wire. */
    method Send(r: Request)
      requires InStep() && r.Valid()
      modifies `toDriver, `asked
      ensures InStep() && asked == old(asked) + [r]
    {
      AllSentAppend(asked[|served|..], r);
      assert (asked + [r])[|served|..] == asked[|served|..] + [r];
      toDriver := toDriver + Sent(r);
      asked := asked + [r];
    }

    /** The server's half of an exchange: send the request and, if it is one that is replied to,
        take the one reply; the driver first catches up with what was sent before. */
    method Exchange(r: Request)
      requires Quiet() && r.Valid()
      modifies this
      ensures Quiet() && asked == old(asked) + [r]
      ensures r.Replied() ==> served == asked
    {
      Send(r);
      assert forall i :: |served| <= i < |old(asked)| ==> asked[i] in old(asked)[|served|..];
      if r.Replied() {
        AwaitReply(r);
        toServer := toServer[1..];
      }
    }

    /** Wait for the one reply while the driver works through what it was sent. */
    method AwaitReply(r: Request)
      requires InStep() && toServer == [] && |served| < |asked| && asked[|asked| - 1] == r && r.Replied()
      requires forall i :: |served| <= i < |asked| - 1 ==> asked[i].End?
      modifies this
      ensures InStep() && asked == old(asked) && served == asked && toServer == [Header(KindOf(r))]
    {
      while toServer == []
        invariant InStep() && asked == old(asked)
        invariant if |served| < |asked| then toServer == [] else toServer == [Header(KindOf(r))]
        decreases |asked| - |served|
      {
        var q := Serve();
      }
    }
  }

  function KindOf(r: Request): Kind {
    match r
    case Register(_, _, _, _, _) => RegisterSeq
    case Settings(_, _, _) => RxfeSettings
    case Ready(_) => CtrlProgReady
    case End => CtrlProgEnd
    case Trigger => Pretrigger
  }
}
