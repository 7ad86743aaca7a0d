/** internal/socket.go: the "pid:uid:gid" text form of a peer's Unix credentials. */
module Credentials {
  import opened Decimals
  import Text

  type Int32 = n: int | -0x8000_0000 <= n < 0x8000_0000
  type Uint32 = n: int | 0 <= n < 0x1_0000_0000

  datatype Ucred = Ucred(pid: Int32, uid: Uint32, gid: Uint32)
  datatype Parsed<T> = Ok(value: T) | Invalid

  /** strconv.Itoa */
  function Itoa(n: int): string {
    if n < 0 then "-" + Print(-n) else Print(n)
  }

  /** strconv.ParseInt(s, 10, 32): optional sign, decimal digits, int32 range. */
  function ParseInt32(s: string): Parsed<Int32> {
    var signed := s != "" && s[0] in "+-";
    var digits := if signed then s[1..] else s;
    if digits == "" || !AllDigits(digits) then Invalid
    else
      var magnitude: int := Value(digits);
      var n := if signed && s[0] == '-' then -magnitude else magnitude;
      if -0x8000_0000 <= n < 0x8000_0000 then Ok(n) else Invalid
  }

  /** The conversion uint32(n), which wraps negative numbers around. */
  function ToUint32(n: Int32): Uint32 {
    if n < 0 then n + 0x1_0000_0000 else n
  }

  /** AuthType, on a platform whose `int` has 64 bits. */
  function AuthType(u: Ucred): string {
    Itoa(u.pid) + ":" + Itoa(u.uid) + ":" + Itoa(u.gid)
  }

  function StringToUcred(s: string): Parsed<Ucred> {
    var ids := Text.Split(s, ':');
    if |ids| != 3 then Invalid
    else
      match (ParseInt32(ids[0]), ParseInt32(ids[1]), ParseInt32(ids[2]))
      case (Ok(pid), Ok(uid), Ok(gid)) => Ok(Ucred(pid, ToUint32(uid), ToUint32(gid)))
      case _ => Invalid
  }

  lemma ItoaParses(n: int)
    ensures ':' !in Itoa(n)
    ensures ParseInt32(Itoa(n)) == if -0x8000_0000 <= n < 0x8000_0000 then Ok(n) else Invalid
  {
    if n < 0 {
      assert Itoa(n)[1..] == Print(-n);
    }
  }

  lemma SplitAuthType(u: Ucred)
    ensures Text.Split(AuthType(u), ':') == [Itoa(u.pid), Itoa(u.uid), Itoa(u.gid)]
  {
    ItoaParses(u.pid);
    ItoaParses(u.uid);
    ItoaParses(u.gid);
    assert AuthType(u) == Itoa(u.pid) + [':'] + (Itoa(u.uid) + [':'] + Itoa(u.gid));
    Text.SplitFirst(Itoa(u.pid), ':', Itoa(u.uid) + [':'] + Itoa(u.gid));
    Text.SplitFirst(Itoa(u.uid), ':', Itoa(u.gid));
    Text.SplitNone(Itoa(u.gid), ':');
  }

  /** Reading back what was printed returns the credentials exactly when uid and gid fit 31 bits,
      and is an error for all others. */
  lemma RoundTrip(u: Ucred)
    ensures StringToUcred(AuthType(u)) ==
            if u.uid < 0x8000_0000 && u.gid < 0x8000_0000 then Ok(u) else Invalid
  {
    SplitAuthType(u);
    ItoaParses(u.pid);
    ItoaParses(u.uid);
    ItoaParses(u.gid);
  }

  lemma ItoaInjective(m: int, n: int)
    requires Itoa(m) == Itoa(n)
    ensures m == n
  {
    if m < 0 {
      assert Itoa(m)[1..] == Print(-m);
    }
    if n < 0 {
      assert Itoa(n)[1..] == Print(-n);
    }
  }

  /** Distinct credentials print differently, including those the parser then rejects. */
  lemma AuthTypeInjective(u: Ucred, v: Ucred)
    requires AuthType(u) == AuthType(v)
    ensures u == v
  {
    SplitAuthType(u);
    SplitAuthType(v);
    ItoaInjective(u.pid, v.pid);
    ItoaInjective(u.uid, v.uid);
    ItoaInjective(u.gid, v.gid);
  }

  /** The order is process, user, group. */
  lemma PrintedOrder()
    ensures AuthType(Ucred(7, 8, 9)) == "7:8:9" && AuthType(Ucred(-1, 10, 0)) == "-1:10:0"
  {
    assert Print(10) == Print(1) + ['0'];
    assert Print(1) == "1";
  }

  /** A number without a sign is read iff it is digits and below 2^31. */
  lemma ParsesDigits(s: string)
    requires s == "" || (s[0] != '+' && s[0] != '-')
    ensures ParseInt32(s) == if s != "" && AllDigits(s) && Value(s) < 0x8000_0000 then Ok(Value(s)) else Invalid
  {
    assert s == "" || s[0] !in "+-";
  }

  /** A plus changes nothing and a minus the sign, which makes room for 2^31. */
  lemma ParsesSign(s: string)
    ensures ParseInt32(['+'] + s) ==
            if s != "" && AllDigits(s) && Value(s) < 0x8000_0000 then Ok(Value(s)) else Invalid
    ensures ParseInt32(['-'] + s) ==
            if s != "" && AllDigits(s) && Value(s) <= 0x8000_0000 then Ok(0 - Value(s)) else Invalid
  {
    assert (['+'] + s)[1..] == s && (['-'] + s)[1..] == s;
    assert "+-"[0] == '+' && "+-"[1] == '-';
  }

  lemma SplitThree(a: string, b: string, c: string)
    requires ':' !in a && ':' !in b && ':' !in c
    ensures Text.Split(a + [':'] + (b + [':'] + c), ':') == [a, b, c]
  {
    Text.SplitFirst(a, ':', b + [':'] + c);
    Text.SplitFirst(b, ':', c);
    Text.SplitNone(c, ':');
  }

  lemma WrapsAround(n: Int32)
    ensures ToUint32(n) == n % 0x1_0000_0000
  {
  }

  /** Credentials are read from exactly three parts, in this order, and negative ids wrap around. */
  lemma ReadsThree(a: string, b: string, c: string, pid: Int32, uid: Int32, gid: Int32)
    requires ':' !in a && ':' !in b && ':' !in c
    requires ParseInt32(a) == Ok(pid) && ParseInt32(b) == Ok(uid) && ParseInt32(c) == Ok(gid)
    ensures StringToUcred(a + [':'] + (b + [':'] + c)) == Ok(Ucred(pid, uid % 0x1_0000_0000, gid % 0x1_0000_0000))
  {
    SplitThree(a, b, c);
    WrapsAround(uid);
    WrapsAround(gid);
  }
}
