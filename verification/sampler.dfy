/** Sampling: the password is `length` characters, the i-th one picked from
    the pool by the i-th value `rand()` returned, reduced modulo the pool
    length; it is written into a static `MaxLen`-byte buffer and terminated
    there (passgen.c:37, 68-73). The values `rand()` returns are a parameter,
    `draws`. */
module Sampler {
  import opened Charsets
  import opened CStrings

  /** The password the draws select: position i holds
      `pool[draws[i] % |pool|]`. */
  function Sample(pool: string, draws: seq<nat>, length: nat): (pw: string)
    requires |pool| > 0 && length <= |draws|
    ensures |pw| == length
    ensures forall i :: 0 <= i < length ==> pw[i] == pool[draws[i] % |pool|]
    ensures forall i :: 0 <= i < length ==> pw[i] in pool
  {
    if length == 0 then []
    else Sample(pool, draws, length - 1) + [pool[draws[length - 1] % |pool|]]
  }

  /** The zero-initialised static password buffer. */
  function EmptyBuffer(): seq<char>
  {
    seq(MaxLen, _ => '\0')
  }

  /** The sampling loop over the password buffer: it stores one pool
      character per index below `length` and then the terminator at
      `length`, which lies inside the buffer. Reading the buffer back as a C
      string gives exactly the sampled password. */
  method FillPassword(pool: string, draws: seq<nat>, length: nat) returns (buf: seq<char>)
    requires |pool| > 0 && '\0' !in pool
    requires length < MaxLen && length <= |draws|
    ensures |buf| == MaxLen && buf[length] == '\0'
    ensures buf[..length] == Sample(pool, draws, length)
    ensures CString(buf) == Sample(pool, draws, length)
  {
    buf := EmptyBuffer();
    var i := 0;
    while i < length
      invariant 0 <= i <= length && |buf| == MaxLen
      invariant forall j :: 0 <= j < i ==> buf[j] == pool[draws[j] % |pool|]
    {
      var index := draws[i] % |pool|;
      buf := buf[i := pool[index]];
      i := i + 1;
    }
    buf := buf[length := '\0'];
    var pw := Sample(pool, draws, length);
    assert buf[..length] == pw;
    assert buf == pw + ['\0'] + buf[length + 1..];
    CStringOfTerminated(pw, buf[length + 1..]);
  }
}
