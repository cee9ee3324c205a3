/**
  The sizes that may be set in the environment: config_validate.c refuses to start on a bad value, and the resolvers of
  worker.c and core.c, written separately, fall back to a default on one. Both lean on strtol, modelled by section
  7.22.1.4 of C11 for base 10 and 64-bit long.
 */
module EnvConfig {
  import opened Bytes
  import opened Options
  import opened Text

  const LONG_MAX: int := 0x7FFF_FFFF_FFFF_FFFF
  const LONG_MIN: int := -0x8000_0000_0000_0000

  // ----- strtol -----

  /** isspace in the C locale. */
  predicate IsSpace(b: byte) {
    b == SP || 9 <= b <= 13
  }

  function SkipSpace(s: seq<byte>, i: nat): (j: nat)
    requires i <= |s|
    ensures i <= j <= |s|
    decreases |s| - i
  {
    if i < |s| && IsSpace(s[i]) then SkipSpace(s, i + 1) else i
  }

  function SkipDigits(s: seq<byte>, i: nat): (j: nat)
    requires i <= |s|
    ensures i <= j <= |s|
    ensures forall k :: i <= k < j ==> IsDigit(s[k])
    decreases |s| - i
  {
    if i < |s| && IsDigit(s[i]) then SkipDigits(s, i + 1) else i
  }

  function SkipSign(s: seq<byte>, i: nat): (j: nat)
    requires i <= |s|
    ensures i <= j <= |s|
  {
    if i < |s| && (s[i] == 43 || s[i] == 45) then i + 1 else i
  }

  /** The value, where scanning stopped, and whether errno was set to ERANGE. */
  datatype Scan = Scan(value: int, end: nat, range: bool)

  function Strtol(s: seq<byte>): Scan {
    var sign := SkipSpace(s, 0);
    var first := SkipSign(s, sign);
    var end := SkipDigits(s, first);
    if end == first then Scan(0, 0, false) else
    var v := Magnitude(s[first..end]);
    var value := if sign < first && s[sign] == 45 then -v else v;
    if value > LONG_MAX then Scan(LONG_MAX, end, true)
    else if value < LONG_MIN then Scan(LONG_MIN, end, true)
    else Scan(value, end, false)
  }

  function Magnitude(digits: seq<byte>): int {
    match ParseDecimal(digits)
    case Some(n) => n
    case None => 0
  }

  // ----- the rules -----

  /** v & w for non-negative values, bit by bit. */
  function And(v: nat, w: nat): nat {
    if v == 0 then 0 else 2 * And(v / 2, w / 2) + (if v % 2 == 1 && w % 2 == 1 then 1 else 0)
  }

  /** Set, and not to the empty string. */
  predicate Given(env: Option<seq<byte>>) {
    env.Some? && env.value != []
  }

  // ----- the validators: config_validate.c -----

  predicate WorkersPass(env: Option<seq<byte>>) {
    if !Given(env) then true
    else if env.value == Ascii("all") || env.value == Ascii("ALL") then true
    else
      var r := Strtol(env.value);
      !(r.range || r.end == 0 || r.end != |env.value| || r.value < 1 || r.value > 255)
  }

  predicate RingCapacityPasses(env: Option<seq<byte>>) {
    if !Given(env) then true
    else
      var r := Strtol(env.value);
      !(r.range || r.end == 0 || r.end != |env.value| || r.value < 8 || r.value > 1024
        || And(r.value, r.value - 1) != 0)
  }

  predicate MaxClientsPass(env: Option<seq<byte>>) {
    if !Given(env) then true
    else
      var r := Strtol(env.value);
      !(r.range || r.end == 0 || r.end != |env.value| || r.value < 8 || r.value > 255)
  }

  predicate UploadWorkersPass(env: Option<seq<byte>>) {
    if !Given(env) then true
    else
      var r := Strtol(env.value);
      !(r.range || r.end == 0 || r.end != |env.value| || r.value < 1 || r.value > 16)
  }

  predicate UploadQueueDepthPasses(env: Option<seq<byte>>) {
    if !Given(env) then true
    else
      var r := Strtol(env.value);
      !(r.range || r.end == 0 || r.end != |env.value| || r.value < 1 || r.value > 32)
  }

  // ----- the resolvers: worker.c and core.c; errno is not looked at, and neither is an end at the start -----

  /** What a resolver settles on: the default, the value it was given, or one operator a core. */
  datatype Resolved = Default | Override(value: nat) | PerCore

  function OperatorCount(env: Option<seq<byte>>): Resolved {
    if !Given(env) then Default
    else if env.value == Ascii("all") || env.value == Ascii("ALL") then PerCore
    else
      var r := Strtol(env.value);
      if r.end == |env.value| && r.value >= 1 && r.value <= 255 then Override(r.value) else Default
  }

  function RingCapacity(env: Option<seq<byte>>): Resolved {
    if !Given(env) then Default
    else
      var r := Strtol(env.value);
      if r.end == |env.value| && r.value >= 8 && r.value <= 1024 && And(r.value, r.value - 1) == 0 then
        Override(r.value)
      else Default
  }

  function MaxClients(env: Option<seq<byte>>): Resolved {
    if !Given(env) then Default
    else
      var r := Strtol(env.value);
      if r.end == |env.value| && r.value >= 8 && r.value <= 255 then Override(r.value) else Default
  }

  function UploadWorkerCount(env: Option<seq<byte>>): Resolved {
    if !Given(env) then Default
    else
      var r := Strtol(env.value);
      if r.end == |env.value| && r.value >= 1 && r.value <= 16 then Override(r.value) else Default
  }

  function UploadQueueDepth(env: Option<seq<byte>>): Resolved {
    if !Given(env) then Default
    else
      var r := Strtol(env.value);
      if r.end == |env.value| && r.value >= 1 && r.value <= 32 then Override(r.value) else Default
  }

  // ----- pair by pair they agree, though they test different things -----

  /** Out of range, strtol answers with a value no resolver accepts; without digits, with an end that is not the end. */
  lemma ScanFacts(s: seq<byte>)
    requires s != []
    ensures var r := Strtol(s);
            (r.range ==> r.value == LONG_MAX || r.value == LONG_MIN) && (r.end == 0 ==> r.end != |s|)
  {
    hide Magnitude;
  }

  /** A value that is set passes validation if and only if the resolver uses it instead of its default. */
  lemma WorkersAgree(env: Option<seq<byte>>)
    requires Given(env)
    ensures WorkersPass(env) <==> OperatorCount(env) != Default
  {
    hide Strtol, Ascii;
    ScanFacts(env.value);
  }

  lemma RingCapacityAgrees(env: Option<seq<byte>>)
    requires Given(env)
    ensures RingCapacityPasses(env) <==> RingCapacity(env) != Default
  {
    hide Strtol, And;
    ScanFacts(env.value);
  }

  lemma MaxClientsAgree(env: Option<seq<byte>>)
    requires Given(env)
    ensures MaxClientsPass(env) <==> MaxClients(env) != Default
  {
    hide Strtol;
    ScanFacts(env.value);
  }

  lemma UploadWorkersAgree(env: Option<seq<byte>>)
    requires Given(env)
    ensures UploadWorkersPass(env) <==> UploadWorkerCount(env) != Default
  {
    hide Strtol;
    ScanFacts(env.value);
  }

  lemma UploadQueueDepthAgrees(env: Option<seq<byte>>)
    requires Given(env)
    ensures UploadQueueDepthPasses(env) <==> UploadQueueDepth(env) != Default
  {
    hide Strtol;
    ScanFacts(env.value);
  }

  // ----- which values are accepted -----

  /** Blanks, at most one sign, and digits to the end. */
  predicate Numeral(s: seq<byte>, blanks: nat, first: nat) {
    && blanks <= first < |s| && first <= blanks + 1
    && (forall i :: 0 <= i < blanks ==> s[i] in {9, 10, 11, 12, 13, 32})
    && (first == blanks + 1 ==> s[blanks] == 43 || s[blanks] == 45)
    && (forall i :: first <= i < |s| ==> IsDigit(s[i]))
  }

  function NumeralValue(s: seq<byte>, blanks: nat, first: nat): int
    requires Numeral(s, blanks, first)
  {
    if first > blanks && s[blanks] == 45 then -Magnitude(s[first..]) else Magnitude(s[first..])
  }

  lemma {:induction false} SkipSpaceTo(s: seq<byte>, i: nat, j: nat)
    requires i <= j < |s| && (forall k :: i <= k < j ==> IsSpace(s[k])) && !IsSpace(s[j])
    ensures SkipSpace(s, i) == j
    decreases j - i
  {
    if i < j { SkipSpaceTo(s, i + 1, j); }
  }

  lemma {:induction false} SkipDigitsTo(s: seq<byte>, i: nat)
    requires i <= |s| && forall k :: i <= k < |s| ==> IsDigit(s[k])
    ensures SkipDigits(s, i) == |s|
    decreases |s| - i
  {
    if i < |s| { SkipDigitsTo(s, i + 1); }
  }

  lemma {:induction false} SkippedSpaces(s: seq<byte>, i: nat)
    requires i <= |s|
    ensures forall k :: i <= k < SkipSpace(s, i) ==> IsSpace(s[k])
    decreases |s| - i
  {
    if i < |s| && IsSpace(s[i]) { SkippedSpaces(s, i + 1); }
  }

  /** The value, cut to what a long can hold. */
  function Clamped(v: int): int {
    if v > 0x7FFF_FFFF_FFFF_FFFF then 0x7FFF_FFFF_FFFF_FFFF
    else if v < -0x8000_0000_0000_0000 then -0x8000_0000_0000_0000
    else v
  }

  lemma NumeralScanned(s: seq<byte>, blanks: nat, first: nat)
    requires Numeral(s, blanks, first)
    ensures var v := NumeralValue(s, blanks, first); Strtol(s) == Scan(Clamped(v), |s|, Clamped(v) != v)
  {
    hide Magnitude;
    SkipSpaceTo(s, 0, blanks);
    SkipDigitsTo(s, first);
    assert s[first..|s|] == s[first..];
  }

  /** strtol consumes a whole non-empty string exactly if it is a numeral. */
  lemma WholeIsNumeral(s: seq<byte>)
    requires s != []
    ensures Strtol(s).end == |s| <==> exists blanks: nat, first: nat :: Numeral(s, blanks, first)
  {
    hide Magnitude;
    if Strtol(s).end == |s| {
      var blanks := SkipSpace(s, 0);
      SkippedSpaces(s, 0);
      assert Numeral(s, blanks, SkipSign(s, blanks));
    }
    forall blanks: nat, first: nat | Numeral(s, blanks, first) ensures Strtol(s).end == |s| {
      NumeralScanned(s, blanks, first);
    }
  }

  /** A number written out in decimal is scanned as itself, however long. */
  lemma DecimalScanned(v: nat)
    ensures Strtol(Decimal(v)) == Scan(Clamped(v), |Decimal(v)|, v > LONG_MAX)
  {
    hide Decimal, ParseDecimal, Strtol;
    var s := Decimal(v);
    DecimalRoundTrip(v);
    assert s[0..] == s;
    assert Numeral(s, 0, 0);
    assert NumeralValue(s, 0, 0) == v;
    NumeralScanned(s, 0, 0);
  }

  lemma DigitsAreNoWord(v: nat)
    ensures Decimal(v) != Ascii("all") && Decimal(v) != Ascii("ALL")
  {
    hide Decimal;
    DecimalRoundTrip(v);
    assert IsDigit(Decimal(v)[0]);
    assert Ascii("all")[0] == 97 && Ascii("ALL")[0] == 65;
  }

  /** Written out in decimal, exactly the sizes within each resolver's bounds are used, as written. */
  lemma WrittenOutIsUsed(v: nat)
    ensures var env := Some(Decimal(v));
            && OperatorCount(env) == (if 1 <= v <= 255 then Override(v) else Default)
            && RingCapacity(env) == (if 8 <= v <= 1024 && And(v, v - 1) == 0 then Override(v) else Default)
            && MaxClients(env) == (if 8 <= v <= 255 then Override(v) else Default)
            && UploadWorkerCount(env) == (if 1 <= v <= 16 then Override(v) else Default)
            && UploadQueueDepth(env) == (if 1 <= v <= 32 then Override(v) else Default)
  {
    hide And, Ascii, Decimal, Strtol;
    DecimalScanned(v);
    DigitsAreNoWord(v);
  }

  /** How many operators there will be on a machine of so many cores, one of which is the listener's if it can be. */
  function Operators(env: Option<seq<byte>>, cores: nat): nat {
    match OperatorCount(env)
    case Default => if cores <= 2 then 1 else cores - 1
    case PerCore => cores
    case Override(v) => v
  }

  /**
    As many as asked for in decimal up to 255, or one a core if all are asked for; else a core is left for the
    listener.
   */
  lemma OperatorsAsAsked(cores: nat, v: nat)
    ensures Operators(Some(Ascii("all")), cores) == cores && Operators(Some(Ascii("ALL")), cores) == cores
    ensures Operators(Some(Decimal(v)), cores)
         == if 1 <= v <= 255 then v else if cores <= 2 then 1 else cores - 1
    ensures Operators(None, cores) == Operators(Some([]), cores) == if cores <= 2 then 1 else cores - 1
  {
    hide Decimal, Ascii, Strtol;
    WrittenOutIsUsed(v);
  }

  // ----- powers of two -----

  predicate IsPower(v: nat, k: nat) {
    v == Pow2(k)
  }

  ghost predicate PowerOfTwo(v: nat) {
    exists k: nat :: IsPower(v, k)
  }

  lemma {:induction false} AndSelf(v: nat)
    ensures And(v, v) == v
  {
    if v > 0 { AndSelf(v / 2); }
  }

  /** v & (v - 1) clears the lowest bit: nothing is left exactly if v is a power of two. */
  lemma {:induction false} LowestBit(v: nat)
    requires v > 0
    ensures And(v, v - 1) == 0 <==> PowerOfTwo(v)
  {
    var u := v / 2;
    if v % 2 == 1 {
      assert (v - 1) / 2 == u && (v - 1) % 2 == 0;
      AndSelf(u);
      OddPower(v);
    } else {
      LowestBit(u);
      assert (v - 1) / 2 == u - 1;
      assert And(v, v - 1) == 2 * And(u, u - 1);
      HalfPower(v);
    }
  }

  lemma OddPower(v: nat)
    requires v % 2 == 1
    ensures PowerOfTwo(v) <==> v == 1
  {
    if v == 1 { assert IsPower(v, 0); }
    forall k: nat ensures IsPower(v, k) ==> v == 1 { Parity(k); }
  }

  lemma Parity(k: nat)
    ensures if k == 0 then Pow2(k) == 1 else Pow2(k) % 2 == 0
  {
  }

  lemma HalfPower(v: nat)
    requires v > 0 && v % 2 == 0
    ensures PowerOfTwo(v) <==> PowerOfTwo(v / 2)
  {
    if PowerOfTwo(v / 2) {
      var k: nat :| IsPower(v / 2, k);
      assert IsPower(v, k + 1);
    }
    if PowerOfTwo(v) {
      var k: nat :| IsPower(v, k);
      assert k > 0;
      assert IsPower(v / 2, k - 1);
    }
  }

  lemma {:induction false} Pow2Grows(j: nat, k: nat)
    requires j <= k
    ensures Pow2(j) <= Pow2(k)
  {
    if j < k { Pow2Grows(j, k - 1); }
  }

  /** The ring capacities that can be resolved are exactly the powers of two from 8 to 1024. */
  lemma RingCapacities(v: nat)
    ensures (exists env: seq<byte> :: RingCapacity(Some(env)) == Override(v)) <==>
            v in {8, 16, 32, 64, 128, 256, 512, 1024}
  {
    hide Strtol, Decimal, Ascii, And;
    PowersInRange(v);
    if v in {8, 16, 32, 64, 128, 256, 512, 1024} {
      LowestBit(v);
      WrittenOutIsUsed(v);
      assert RingCapacity(Some(Decimal(v))) == Override(v);
    }
    if env: seq<byte> :| RingCapacity(Some(env)) == Override(v) {
      LowestBit(v);
    }
  }

  lemma OutOfRange(k: nat)
    ensures (k < 3 ==> Pow2(k) <= 4) && (k > 10 ==> Pow2(k) >= 2048)
  {
    assert IsPower(4, 2);
    assert IsPower(2048, 11);
    if k < 3 { Pow2Grows(k, 2); }
    if k > 10 { Pow2Grows(11, k); }
  }

  lemma PowersInRange(v: nat)
    ensures 8 <= v <= 1024 && PowerOfTwo(v) <==> v in {8, 16, 32, 64, 128, 256, 512, 1024}
  {
    assert IsPower(8, 3);
    assert IsPower(16, 4);
    assert IsPower(32, 5);
    assert IsPower(64, 6);
    assert IsPower(128, 7);
    assert IsPower(256, 8);
    assert IsPower(512, 9);
    assert IsPower(1024, 10);
    if 8 <= v <= 1024 && PowerOfTwo(v) {
      var k: nat :| IsPower(v, k);
      OutOfRange(k);
      assert k in {3, 4, 5, 6, 7, 8, 9, 10};
    }
  }

  // ----- listen specifications -----

  /** sizeof sun_path. */
  const SUN_PATH: nat := 108

  const SLASH: byte := 47

  predicate AllDigits(s: seq<byte>) {
    forall i :: 0 <= i < |s| ==> IsDigit(s[i])
  }

  /** A TCP port a server can be told to bind. */
  predicate PortOk(s: seq<byte>) {
    1 <= |s| <= 5 && AllDigits(s) && 1 <= Magnitude(s) <= 65535
  }

  /** Where the last slash is; there is one. */
  function LastSlash(s: seq<byte>): (i: nat)
    requires s != [] && s[0] == SLASH
    ensures i < |s| && s[i] == SLASH && forall k :: i < k < |s| ==> s[k] != SLASH
  {
    if s[|s| - 1] == SLASH then |s| - 1 else LastSlash(s[..|s| - 1])
  }

  /** The directory a path is in. */
  function Parent(path: seq<byte>): seq<byte>
    requires path != [] && path[0] == SLASH
  {
    if LastSlash(path) == 0 then path[..1] else path[..LastSlash(path)]
  }

  /** What may be listened on: nothing, a path short enough in a directory that exists, or a port. */
  predicate ListenOk(spec: Option<seq<byte>>, isDirectory: seq<byte> -> bool) {
    !Given(spec)
    || if spec.value[0] == SLASH then |spec.value| < SUN_PATH && isDirectory(Parent(spec.value)) else PortOk(spec.value)
  }

  /** _validate_tcp_port. */
  method ValidateTcpPort(port: seq<byte>) returns (ok: bool)
    ensures ok <==> PortOk(port)
  {
    hide Strtol, Magnitude;
    ok := 0 < |port| <= 5;
    var i: nat := 0;
    while ok && i < |port|
      invariant i <= |port|
      invariant ok <==> 0 < |port| <= 5 && forall k :: 0 <= k < i ==> IsDigit(port[k])
    {
      ok := IsDigit(port[i]);
      i := i + 1;
    }
    if ok {
      assert port[0..] == port;
      NumeralScanned(port, 0, 0);
      var r := Strtol(port);
      ok := !r.range && r.end != 0 && r.end == |port| && 1 <= r.value <= 65535;
    }
  }

  /** _validate_unix_path: the path is cut at its last slash, in a copy. */
  method ValidateUnixPath(path: seq<byte>, isDirectory: seq<byte> -> bool) returns (ok: bool)
    requires path != [] && path[0] == SLASH
    ensures ok <==> |path| < 108 && isDirectory(Parent(path))
  {
    if |path| == 0 || |path| >= SUN_PATH { return false; }
    var parent := new byte[SUN_PATH](i requires 0 <= i < SUN_PATH => if i < |path| then path[i] else 0);
    assert parent[..|path|] == path;
    var last: nat := |path| - 1;
    while parent[last] != SLASH
      invariant last < |path| && parent[..|path|] == path
      invariant forall k :: last < k < |path| ==> path[k] != SLASH
      decreases last
    {
      last := last - 1;
    }
    OnlyLastSlash(path, last);
    var end := if last == 0 then 1 else last;
    parent[end] := 0;
    assert parent[..end] == path[..end];
    ok := isDirectory(parent[..end]);
  }

  lemma OnlyLastSlash(path: seq<byte>, i: nat)
    requires path != [] && path[0] == SLASH && i < |path| && path[i] == SLASH
    requires forall k :: i < k < |path| ==> path[k] != SLASH
    ensures LastSlash(path) == i
  {
    var j := LastSlash(path);
    assert path[j] == SLASH;
  }

  /** _validate_listen_spec. */
  method ValidateListenSpec(spec: Option<seq<byte>>, isDirectory: seq<byte> -> bool) returns (ok: bool)
    ensures ok <==> ListenOk(spec, isDirectory)
  {
    if spec.None? || spec.value == [] { return true; }
    if spec.value[0] == SLASH {
      ok := ValidateUnixPath(spec.value, isDirectory);
    } else {
      ok := ValidateTcpPort(spec.value);
    }
  }

  // ----- start-up -----

  /** The five variables, each set or not. */
  datatype Environment = Environment(
    workers: Option<seq<byte>>,
    ringCapacity: Option<seq<byte>>,
    maxClients: Option<seq<byte>>,
    uploadWorkers: Option<seq<byte>>,
    uploadQueueDepth: Option<seq<byte>>)

  /** No resolver will have to fall back on its default. */
  predicate AllUsed(e: Environment) {
    && (Given(e.workers) ==> OperatorCount(e.workers) != Default)
    && (Given(e.ringCapacity) ==> RingCapacity(e.ringCapacity) != Default)
    && (Given(e.maxClients) ==> MaxClients(e.maxClients) != Default)
    && (Given(e.uploadWorkers) ==> UploadWorkerCount(e.uploadWorkers) != Default)
    && (Given(e.uploadQueueDepth) ==> UploadQueueDepth(e.uploadQueueDepth) != Default)
  }

  /** config_validate_startup: everything is looked at, even after something bad. */
  method ValidateStartup(api: Option<seq<byte>>, upload: Option<seq<byte>>, e: Environment,
                         isDirectory: seq<byte> -> bool)
    returns (valid: bool)
    ensures valid <==> ListenOk(api, isDirectory) && ListenOk(upload, isDirectory) && AllUsed(e)
  {
    hide Strtol, And, ListenOk, OperatorCount, RingCapacity, MaxClients, UploadWorkerCount, UploadQueueDepth;
    valid := true;
    var apiOk := ValidateListenSpec(api, isDirectory);
    if !apiOk { valid := false; }
    var uploadOk := ValidateListenSpec(upload, isDirectory);
    if !uploadOk { valid := false; }
    if Given(e.workers) { WorkersAgree(e.workers); }
    if !WorkersPass(e.workers) { valid := false; }
    if Given(e.ringCapacity) { RingCapacityAgrees(e.ringCapacity); }
    if !RingCapacityPasses(e.ringCapacity) { valid := false; }
    if Given(e.maxClients) { MaxClientsAgree(e.maxClients); }
    if !MaxClientsPass(e.maxClients) { valid := false; }
    if Given(e.uploadWorkers) { UploadWorkersAgree(e.uploadWorkers); }
    if !UploadWorkersPass(e.uploadWorkers) { valid := false; }
    if Given(e.uploadQueueDepth) { UploadQueueDepthAgrees(e.uploadQueueDepth); }
    if !UploadQueueDepthPasses(e.uploadQueueDepth) { valid := false; }
  }
}
