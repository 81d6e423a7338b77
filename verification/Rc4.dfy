/** The corpus generator's cipher and the keys of its encrypted document (ISO 32000-1, section 7.6). */
module Rc4 {
  import opened Prelude
  import opened Tiles

  const SIZE: nat := 256

  /** Exclusive or of the low `bits` bits, lowest first. */
  function XorBits(a: nat, b: nat, bits: nat): (x: nat)
    requires a < Power(bits) && b < Power(bits)
    ensures x < Power(bits)
  {
    if bits == 0 then 0 else (a + b) % 2 + 2 * XorBits(a / 2, b / 2, bits - 1)
  }

  function Power(bits: nat): nat {
    if bits == 0 then 1 else 2 * Power(bits - 1)
  }

  function Xor(a: Byte, b: Byte): Byte {
    assert Power(8) == 256;
    XorBits(a, b, 8)
  }

  lemma {:induction false} XorBitsTwice(a: nat, b: nat, bits: nat)
    requires a < Power(bits) && b < Power(bits)
    ensures XorBits(XorBits(a, b, bits), b, bits) == a
  {
    if bits > 0 {
      hide Power;
      HalfFits(a, bits);
      HalfFits(b, bits);
      var rest := XorBits(a / 2, b / 2, bits - 1);
      XorBitsTwice(a / 2, b / 2, bits - 1);
      LowAndRest((a + b) % 2, rest);
      LowBitTwice(a, b, rest);
    }
  }

  lemma HalfFits(a: nat, bits: nat)
    requires a < Power(bits) && bits > 0
    ensures a / 2 < Power(bits - 1)
  {
  }

  lemma LowAndRest(low: nat, rest: nat)
    requires low < 2
    ensures (low + 2 * rest) % 2 == low && (low + 2 * rest) / 2 == rest
  {
  }

  lemma LowBitTwice(a: nat, b: nat, rest: nat)
    ensures ((a + b) % 2 + 2 * rest + b) % 2 == a % 2
  {
  }

  // ------------------------------------------------------------- what the xor is

  /** Binary digit `k` of a number, lowest first. */
  function Bit(n: nat, k: nat): nat {
    if k == 0 then n % 2 else Bit(n / 2, k - 1)
  }

  /** Each bit of the result is set exactly when the bits it is made of differ. */
  lemma {:induction false} XorBitsAt(a: nat, b: nat, bits: nat, k: nat)
    requires a < Power(bits) && b < Power(bits) && k < bits
    ensures Bit(XorBits(a, b, bits), k) == 1 <==> Bit(a, k) != Bit(b, k)
    decreases bits
  {
    hide Power;
    HalfFits(a, bits);
    HalfFits(b, bits);
    LowAndRest((a + b) % 2, XorBits(a / 2, b / 2, bits - 1));
    if k > 0 {
      XorBitsAt(a / 2, b / 2, bits - 1, k - 1);
    }
  }

  lemma {:induction false} XorBitsSame(a: nat, b: nat, bits: nat)
    requires a < Power(bits) && b < Power(bits)
    ensures XorBits(a, b, bits) == a <==> b == 0
  {
    if bits > 0 {
      hide Power;
      HalfFits(a, bits);
      HalfFits(b, bits);
      LowAndRest((a + b) % 2, XorBits(a / 2, b / 2, bits - 1));
      XorBitsSame(a / 2, b / 2, bits - 1);
    }
  }

  /** Of eight bits, each is set exactly when the two bytes differ in it. */
  lemma XorIsBitwise(a: Byte, b: Byte, k: nat)
    requires k < 8
    ensures Bit(Xor(a, b), k) == 1 <==> Bit(a, k) != Bit(b, k)
  {
    hide XorBits;
    assert Power(8) == 256;
    XorBitsAt(a, b, 8, k);
  }

  lemma XorTwice(a: Byte, b: Byte)
    ensures Xor(Xor(a, b), b) == a
  {
    assert Power(8) == 256;
    XorBitsTwice(a, b, 8);
  }

  // ------------------------------------------------------------ as functions

  function Identity(): (state: seq<Byte>)
    ensures |state| == SIZE
  {
    seq(SIZE, i requires 0 <= i < SIZE => i)
  }

  function Swap(state: seq<Byte>, i: nat, j: nat): (swapped: seq<Byte>)
    requires i < |state| && j < |state|
    ensures |swapped| == |state|
  {
    state[i := state[j]][j := state[i]]
  }

  /** The state and `j` after `n` rounds of key setup. */
  function Scheduled(key: seq<Byte>, n: nat): (r: (seq<Byte>, nat))
    requires key != [] && n <= SIZE
    ensures |r.0| == SIZE && r.1 < SIZE
  {
    if n == 0 then (Identity(), 0)
    else
      var (state, j) := Scheduled(key, n - 1);
      var j' := (j + state[n - 1] + key[(n - 1) % |key|]) % SIZE;
      (Swap(state, n - 1, j'), j')
  }

  /** The state, `i` and `j` after `n` bytes of output. */
  function Running(key: seq<Byte>, n: nat): (r: (seq<Byte>, nat, nat))
    requires key != []
    ensures |r.0| == SIZE && r.1 < SIZE && r.2 < SIZE
  {
    if n == 0 then (Scheduled(key, SIZE).0, 0, 0)
    else
      var (state, i, j) := Running(key, n - 1);
      var i' := (i + 1) % SIZE;
      var j' := (j + state[i']) % SIZE;
      (Swap(state, i', j'), i', j')
  }

  /** Byte `n` of the key stream; the data has no part in it. */
  function KeyByte(key: seq<Byte>, n: nat): Byte
    requires key != []
  {
    var (state, i, j) := Running(key, n + 1);
    state[(state[i] + state[j]) % SIZE]
  }

  function Ciphered(key: seq<Byte>, data: seq<Byte>): (out: seq<Byte>)
    requires key != []
    ensures |out| == |data|
  {
    seq(|data|, n requires 0 <= n < |data| => Xor(data[n], KeyByte(key, n)))
  }

  // ------------------------------------------------------------- as the program

  lemma ScheduleStarts(key: seq<Byte>)
    requires key != []
    ensures Scheduled(key, 0) == (Identity(), 0)
  {
  }

  lemma ScheduleGoesOn(key: seq<Byte>, n: nat)
    requires key != [] && n < SIZE
    ensures var (state, j) := Scheduled(key, n);
            var j' := (j + state[n] + key[n % |key|]) % SIZE;
            Scheduled(key, n + 1) == (Swap(state, n, j'), j')
  {
    hide Swap, Identity;
  }

  method KeySetup(key: seq<Byte>) returns (state: array<Byte>)
    requires key != []
    ensures fresh(state) && state[..] == Scheduled(key, SIZE).0
  {
    hide Scheduled;
    ScheduleStarts(key);
    state := new Byte[SIZE](i requires 0 <= i < SIZE => i);
    var j := 0;
    assert state[..] == Identity();
    for i := 0 to SIZE
      invariant (state[..], j) == Scheduled(key, i)
    {
      ScheduleGoesOn(key, i);
      j := (j + state[i] + key[i % |key|]) % SIZE;
      state[i], state[j] := state[j], state[i];
    }
  }

  lemma RunningStarts(key: seq<Byte>)
    requires key != []
    ensures Running(key, 0) == (Scheduled(key, SIZE).0, 0, 0)
  {
  }

  lemma RunningGoesOn(key: seq<Byte>, n: nat)
    requires key != []
    ensures var (state, i, j) := Running(key, n);
            var i' := (i + 1) % SIZE;
            var j' := (j + state[i']) % SIZE;
            var next := Swap(state, i', j');
            Running(key, n + 1) == (next, i', j') && KeyByte(key, n) == next[(next[i'] + next[j']) % SIZE]
  {
    hide Scheduled, Swap;
  }

  method Encipher(key: seq<Byte>, data: seq<Byte>) returns (out: seq<Byte>)
    requires key != []
    ensures out == Ciphered(key, data)
  {
    hide Xor, Scheduled, Running, KeyByte;
    var state := KeySetup(key);
    out := [];
    var i, j := 0, 0;
    RunningStarts(key);
    for n := 0 to |data|
      invariant (state[..], i, j) == Running(key, n)
      invariant |out| == n && forall k | 0 <= k < n :: out[k] == Xor(data[k], KeyByte(key, k))
    {
      RunningGoesOn(key, n);
      i := (i + 1) % SIZE;
      j := (j + state[i]) % SIZE;
      state[i], state[j] := state[j], state[i];
      assert (state[..], i, j) == Running(key, n + 1);
      var byte := state[(state[i] + state[j]) % SIZE];
      assert byte == KeyByte(key, n);
      out := out + [Xor(data[n], byte)];
    }
  }

  // ------------------------------------------------------------------ properties

  /** Each byte value stands in the state exactly once. */
  ghost predicate Permutation(state: seq<Byte>) {
    && |state| == SIZE
    && (forall i, j | 0 <= i < j < |state| :: state[i] != state[j])
    && multiset(state) == multiset(Identity())
  }

  lemma SwapPermutes(state: seq<Byte>, i: nat, j: nat)
    requires Permutation(state) && i < SIZE && j < SIZE
    ensures Permutation(Swap(state, i, j))
  {
  }

  lemma {:induction false} SetupPermutes(key: seq<Byte>, n: nat)
    requires key != [] && n <= SIZE
    ensures Permutation(Scheduled(key, n).0)
  {
    hide Permutation, Swap;
    if n == 0 {
      IdentityPermutes();
    } else {
      SetupPermutes(key, n - 1);
      SwapPermutes(Scheduled(key, n - 1).0, n - 1, Scheduled(key, n).1);
    }
  }

  lemma IdentityPermutes()
    ensures Permutation(Identity())
  {
  }

  /** The state is a permutation of all byte values through key setup and any length of output. */
  lemma {:induction false} OutputPermutes(key: seq<Byte>, n: nat)
    requires key != []
    ensures Permutation(Running(key, n).0)
  {
    hide Permutation, Swap, Scheduled;
    if n == 0 {
      SetupPermutes(key, SIZE);
    } else {
      OutputPermutes(key, n - 1);
      var (_, i, j) := Running(key, n);
      SwapPermutes(Running(key, n - 1).0, i, j);
    }
  }

  /** Enciphering twice under one key gives the data back. */
  lemma CipherTwice(key: seq<Byte>, data: seq<Byte>)
    requires key != []
    ensures Ciphered(key, Ciphered(key, data)) == data
  {
    forall n | 0 <= n < |data|
      ensures Ciphered(key, Ciphered(key, data))[n] == data[n]
    {
      XorTwice(data[n], KeyByte(key, n));
    }
  }

  /** A byte is left as it is exactly where the key stream is zero. */
  lemma CipherChangesIff(key: seq<Byte>, data: seq<Byte>, n: nat)
    requires key != [] && n < |data|
    ensures Ciphered(key, data)[n] == data[n] <==> KeyByte(key, n) == 0
  {
    hide KeyByte;
    assert Power(8) == 256;
    XorBitsSame(data[n], KeyByte(key, n), 8);
  }

  /** Round `n` of key setup adds the state's and the key's byte to `j`, and exchanges the two places. */
  lemma ScheduleRound(key: seq<Byte>, n: nat)
    requires key != [] && n < SIZE
    ensures Scheduled(key, 0).1 == 0 && forall k | 0 <= k < SIZE :: Scheduled(key, 0).0[k] == k
    ensures var (state, j) := Scheduled(key, n);
            var (state', j') := Scheduled(key, n + 1);
            && (j' - j - state[n] - key[n % |key|]) % SIZE == 0 && Exchanged(state, state', n, j')
  {
    hide Scheduled;
    ScheduleStarts(key);
    ScheduleGoesOn(key, n);
    SumIsCongruent(Scheduled(key, n).1 + Scheduled(key, n).0[n] + key[n % |key|]);
  }

  /** Two places have changed their contents, and no other place has. */
  ghost predicate Exchanged(state: seq<Byte>, state': seq<Byte>, i: nat, j: nat)
    requires |state| == |state'| == SIZE && i < SIZE && j < SIZE
  {
    && state'[i] == state[j] && state'[j] == state[i]
    && forall k | 0 <= k < SIZE && k != i && k != j :: state'[k] == state[k]
  }

  lemma SumIsCongruent(sum: int)
    ensures (sum % SIZE - sum) % SIZE == 0
  {
    assert sum % SIZE - sum == SIZE * -(sum / SIZE);
  }

  /** Byte `n` of output: the places are one further on and `j` advanced by the state; their contents pick the byte. */
  lemma OutputRound(key: seq<Byte>, n: nat)
    requires key != []
    ensures Running(key, 0) == (Scheduled(key, SIZE).0, 0, 0)
    ensures var (state, i, j) := Running(key, n);
            var (state', i', j') := Running(key, n + 1);
            && i' == (if i == SIZE - 1 then 0 else i + 1) && (j' - j - state[i']) % SIZE == 0
            && Exchanged(state, state', i', j')
            && KeyByte(key, n) == state'[(state'[i'] + state'[j']) % SIZE]
  {
    hide Scheduled, Running, KeyByte;
    RunningStarts(key);
    RunningGoesOn(key, n);
    SumIsCongruent(Running(key, n).2 + Running(key, n).0[Running(key, n + 1).1]);
  }

  /** Every byte of the key counts: keys of one length, at most 256, that are scheduled alike are the same key. */
  lemma ScheduleTellsKey(key: seq<Byte>, key': seq<Byte>)
    requires 0 < |key| == |key'| <= SIZE && forall n | 0 <= n <= SIZE :: Scheduled(key, n) == Scheduled(key', n)
    ensures key == key'
  {
    hide Scheduled;
    forall n | 0 <= n < |key|
      ensures key[n] == key'[n]
    {
      assert Scheduled(key, n) == Scheduled(key', n) && Scheduled(key, n + 1) == Scheduled(key', n + 1);
      RoundTellsKey(key, key', n);
    }
  }

  lemma RoundTellsKey(key: seq<Byte>, key': seq<Byte>, n: nat)
    requires n < |key| == |key'| <= SIZE
    requires Scheduled(key, n) == Scheduled(key', n) && Scheduled(key, n + 1) == Scheduled(key', n + 1)
    ensures key[n] == key'[n]
  {
    hide Scheduled;
    RoundAdvances(key, n);
    RoundAdvances(key', n);
    var (state, j) := Scheduled(key, n);
    OneByte(Scheduled(key, n + 1).1 - j - state[n], key[n], key'[n]);
  }

  lemma RoundAdvances(key: seq<Byte>, n: nat)
    requires n < |key| <= SIZE
    ensures (Scheduled(key, n + 1).1 - Scheduled(key, n).1 - Scheduled(key, n).0[n] - key[n]) % SIZE == 0
  {
    hide Scheduled, Exchanged;
    ScheduleRound(key, n);
    WithinOneTurn(n, |key|);
  }

  lemma WithinOneTurn(n: nat, length: nat)
    requires n < length
    ensures n % length == n
  {
  }

  lemma OneByte(sum: int, a: Byte, b: Byte)
    requires (sum - a) % SIZE == 0 && (sum - b) % SIZE == 0
    ensures a == b
  {
  }

  // ------------------------------------------------ keys of the encrypted document

  const PAD: seq<Byte> := [
    0x28, 0xBF, 0x4E, 0x5E, 0x4E, 0x75, 0x8A, 0x41, 0x64, 0x00, 0x4E, 0x56,
    0xFF, 0xFA, 0x01, 0x08, 0x2E, 0x2E, 0x00, 0xB6, 0xD0, 0x68, 0x3E, 0x80,
    0x2F, 0x0C, 0xA9, 0xFE, 0x64, 0x53, 0x69, 0x7A]

  const KEY_LENGTH: nat := 5

  /** The password as Latin-1 bytes, cut or padded to thirty-two. */
  function PadPassword(password: seq<Byte>): (padded: seq<Byte>)
    ensures |padded| == 32
    ensures |password| >= 32 ==> padded == password[..32]
    ensures |password| < 32 ==> padded[..|password|] == password && padded[|password|..] == PAD[..32 - |password|]
  {
    var raw := password[..Min(32, |password|)];
    raw + PAD[..32 - |raw|]
  }

  /** The digest is not modelled, only that it gives sixteen bytes. */
  type Digest = seq<Byte> -> seq<Byte>

  ghost predicate IsDigest(md5: Digest) {
    forall data :: |md5(data)| == 16
  }

  /** `struct.pack("<i", -1)`: every permission. */
  const ALL_PERMISSIONS: seq<Byte> := [0xFF, 0xFF, 0xFF, 0xFF]

  function OwnerEntry(md5: Digest, password: seq<Byte>): seq<Byte>
    requires IsDigest(md5)
  {
    Ciphered(md5(PadPassword(password))[..KEY_LENGTH], PadPassword(password))
  }

  function EncryptionKey(md5: Digest, password: seq<Byte>, id: seq<Byte>): (key: seq<Byte>)
    requires IsDigest(md5)
    ensures |key| == KEY_LENGTH
  {
    md5(PadPassword(password) + OwnerEntry(md5, password) + ALL_PERMISSIONS + id)[..KEY_LENGTH]
  }

  function UserEntry(md5: Digest, password: seq<Byte>, id: seq<Byte>): seq<Byte>
    requires IsDigest(md5)
  {
    Ciphered(EncryptionKey(md5, password, id), PAD)
  }

  /** Three low bytes of the object number and two of the generation extend the key. */
  function ObjectKey(md5: Digest, key: seq<Byte>, number: U32, generation: U32): (extended: seq<Byte>)
    requires IsDigest(md5) && |key| == KEY_LENGTH
    ensures |extended| == 10
  {
    md5(key + LittleEndian(number)[..3] + LittleEndian(generation)[..2])[..Min(|key| + 5, 16)]
  }

  /**
   What a reader with the password can do with the document built here: recover the padded user password
   from the owner entry, authenticate against the user entry, and decrypt the content of object five.
   */
  lemma ReaderDecrypts(md5: Digest, password: seq<Byte>, id: seq<Byte>, content: seq<Byte>)
    requires IsDigest(md5)
    ensures Ciphered(md5(PadPassword(password))[..KEY_LENGTH], OwnerEntry(md5, password)) == PadPassword(password)
    ensures Ciphered(EncryptionKey(md5, password, id), UserEntry(md5, password, id)) == PAD
    ensures var key := ObjectKey(md5, EncryptionKey(md5, password, id), 5, 0);
            Ciphered(key, Ciphered(key, content)) == content
  {
    hide Ciphered;
    CipherTwice(md5(PadPassword(password))[..KEY_LENGTH], PadPassword(password));
    CipherTwice(EncryptionKey(md5, password, id), PAD);
    CipherTwice(ObjectKey(md5, EncryptionKey(md5, password, id), 5, 0), content);
  }

  /** Whether these bytes are what the key is a digest of (ISO 32000-1, Algorithm 2). */
  ghost predicate KeyInput(md5: Digest, password: seq<Byte>, id: seq<Byte>, input: seq<Byte>)
    requires IsDigest(md5)
  {
    && |input| == 68 + |id|
    && input[..32] == PadPassword(password) && input[32..64] == OwnerEntry(md5, password)
    && (forall i | 64 <= i < 68 :: input[i] == 0xFF) && input[68..] == id
  }

  /** And of what the key of an object is (Algorithm 1): key, object number, generation, low bytes first. */
  ghost predicate ObjectKeyInput(key: seq<Byte>, number: U32, generation: U32, input: seq<Byte>) {
    && |input| == |key| + 5 && input[..|key|] == key
    && FromLittleEndian(input[|key|..|key| + 3] + [0]) == number % 0x100_0000
    && FromLittleEndian(input[|key| + 3..] + [0, 0]) == generation % 0x1_0000
  }

  lemma KeysAreDigests(md5: Digest, password: seq<Byte>, id: seq<Byte>, key: seq<Byte>, number: U32, generation: U32)
    requires IsDigest(md5) && |key| == KEY_LENGTH
    ensures exists input :: KeyInput(md5, password, id, input) && EncryptionKey(md5, password, id) == md5(input)[..5]
    ensures exists input ::
              ObjectKeyInput(key, number, generation, input) &&
              ObjectKey(md5, key, number, generation) == md5(input)[..10]
  {
    hide Ciphered, PadPassword;
    var password', owner := PadPassword(password), OwnerEntry(md5, password);
    var input := password' + owner + ALL_PERMISSIONS + id;
    assert input[..32] == password' && input[32..64] == owner && input[68..] == id;
    assert KeyInput(md5, password, id, input);
    ObjectBytes(key, number, generation);
    var extended := key + LittleEndian(number)[..3] + LittleEndian(generation)[..2];
    assert ObjectKeyInput(key, number, generation, extended);
  }

  lemma ObjectBytes(key: seq<Byte>, number: U32, generation: U32)
    ensures ObjectKeyInput(key, number, generation, key + LittleEndian(number)[..3] + LittleEndian(generation)[..2])
  {
    LowBytes(number);
    LowBytes(generation);
    var input := key + LittleEndian(number)[..3] + LittleEndian(generation)[..2];
    assert input[..|key|] == key;
    assert input[|key|..|key| + 3] == LittleEndian(number)[..3];
    assert input[|key| + 3..] == LittleEndian(generation)[..2];
  }

  lemma LowBytes(n: U32)
    ensures FromLittleEndian(LittleEndian(n)[..3] + [0]) == n % 0x100_0000
    ensures FromLittleEndian(LittleEndian(n)[..2] + [0, 0]) == n % 0x1_0000
  {
    var low, middle, high := n / 0x100, n / 0x1_0000, n / 0x100_0000;
    assert low / 0x100 == middle && middle / 0x100 == high;
    assert n == 0x100_0000 * high + n % 0x100_0000 && n == 0x1_0000 * middle + n % 0x1_0000;
  }
}
