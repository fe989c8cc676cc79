/**
 * The block cipher as the kernel computes it: a four by four state changed in place, one
 * transformation after another.
 */
module Aes {
  import opened AesBytes
  import opened AesSpec

  ghost predicate IsState(state: array2<bv8>) { state.Length0 == 4 && state.Length1 == 4 }

  /** The state as a block. */
  ghost function View(state: array2<bv8>): Block
    requires IsState(state)
    reads state
  {
    seq(16, i requires 0 <= i < 16 reads state => state[i % 4, i / 4])
  }

  /** The columns before `n` hold those of `done`, the others still those of `todo`. */
  ghost predicate Columns(state: array2<bv8>, n: nat, done: Block, todo: Block)
    requires IsState(state)
    reads state
  {
    forall r, c :: 0 <= r < 4 && 0 <= c < 4 ==> state[r, c] == (if c < n then done else todo)[r + 4 * c]
  }

  /** The rows before `n`, and the first `m` cells of row `n`, hold those of `done`. */
  ghost predicate Rows(state: array2<bv8>, n: nat, m: nat, done: Block, todo: Block)
    requires IsState(state)
    reads state
  {
    forall r, c :: 0 <= r < 4 && 0 <= c < 4 ==>
      state[r, c] == (if r < n || (r == n && c < m) then done else todo)[r + 4 * c]
  }

  /** Cell by cell and as a block. */
  lemma Viewed(state: array2<bv8>, b: Block)
    requires IsState(state)
    ensures View(state) == b <==> forall r, c :: 0 <= r < 4 && 0 <= c < 4 ==> state[r, c] == b[r + 4 * c]
  {
    if forall r, c :: 0 <= r < 4 && 0 <= c < 4 ==> state[r, c] == b[r + 4 * c] {
      forall i | 0 <= i < 16
        ensures View(state)[i] == b[i]
      {
        assert state[i % 4, i / 4] == b[i];
      }
    }
    if View(state) == b {
      forall r, c | 0 <= r < 4 && 0 <= c < 4
        ensures state[r, c] == b[r + 4 * c]
      {
        Place(c, r);
        assert View(state)[r + 4 * c] == state[r, c];
      }
    }
  }

  // ---- Key expansion ---------------------------------------------------------------------

  /** What one turn of the expansion loop feeds in. */
  method Feed(t: bv32, i: nat) returns (temp: bv32)
    requires 8 <= i < 60
    ensures temp == Fed(t, i)
  {
    hide Pack, SubWord, RotWord, Power, Xor32;
    temp := t;
    if i % 8 == 0 {
      RconIsPower(i / 8 - 1);
      temp := Xor32(SubWord(RotWord(temp)), Rcon()[i / 8 - 1]);
    } else if i % 8 == 4 {
      temp := SubWord(temp);
    }
  }

  /** `aes256_init_encrypt`: the schedule of section 5.2 of FIPS 197. */
  method ExpandKey(w: array<bv32>, key: seq<bv8>)
    requires w.Length == 60 && |key| == 32
    modifies w
    ensures w[..] == Expand(key) && Standard(w[..], key)
  {
    hide Pack, Fed, Xor32, Standard;
    for i := 0 to 8
      invariant forall j :: 0 <= j < i ==> w[j] == KeyWord(key, j)
    {
      w[i] := Pack(key[i * 4], key[i * 4 + 1], key[i * 4 + 2], key[i * 4 + 3]);
    }
    for i := 8 to 60
      invariant forall j :: 0 <= j < i ==> w[j] == KeyWord(key, j)
    {
      var temp := Feed(w[i - 1], i);
      w[i] := Xor32(w[i - 8], temp);
    }
    ExpandIsStandard(w[..], key);
  }

  // ---- The transformations in place ------------------------------------------------------

  /** Writes one column. */
  method PutColumn(state: array2<bv8>, c: nat, t0: bv8, t1: bv8, t2: bv8, t3: bv8, ghost done: Block, ghost todo: Block)
    requires IsState(state) && c < 4
    requires Columns(state, c, done, todo)
    requires t0 == done[4 * c] && t1 == done[1 + 4 * c] && t2 == done[2 + 4 * c] && t3 == done[3 + 4 * c]
    modifies state
    ensures Columns(state, c + 1, done, todo)
  {
    state[0, c] := t0;
    state[1, c] := t1;
    state[2, c] := t2;
    state[3, c] := t3;
    forall i, j | 0 <= i < 4 && 0 <= j < 4
      ensures state[i, j] == (if j < c + 1 then done else todo)[i + 4 * j]
    {
      if j != c {
        assert state[i, j] == old(state[i, j]);
      } else {
        assert i == 0 || i == 1 || i == 2 || i == 3;
      }
    }
  }

  lemma KeyedColumn(b: Block, w: Schedule, round: nat, c: nat, r: nat)
    requires round <= 14 && c < 4 && r < 4
    ensures AddRoundKey(b, w, round)[r + 4 * c] == Xor(b[r + 4 * c], ByteOf(w[4 * round + c], r))
  {
    hide Xor, ByteOf;
    Place(c, r);
  }

  method ApplyRoundKey(state: array2<bv8>, w: array<bv32>, round: nat)
    requires IsState(state) && w.Length == 60 && round <= 14
    modifies state
    ensures View(state) == AddRoundKey(old(View(state)), w[..], round)
  {
    hide Xor, ByteOf, View, AddRoundKey;
    ghost var todo := View(state);
    ghost var done := AddRoundKey(todo, w[..], round);
    Viewed(state, todo);
    for c := 0 to 4
      invariant Columns(state, c, done, todo)
    {
      var k := w[round * 4 + c];
      KeyedColumn(todo, w[..], round, c, 0);
      KeyedColumn(todo, w[..], round, c, 1);
      KeyedColumn(todo, w[..], round, c, 2);
      KeyedColumn(todo, w[..], round, c, 3);
      PutColumn(state, c, Xor(state[0, c], ByteOf(k, 0)), Xor(state[1, c], ByteOf(k, 1)),
                Xor(state[2, c], ByteOf(k, 2)), Xor(state[3, c], ByteOf(k, 3)), done, todo);
    }
    Viewed(state, done);
  }

  method SubstituteBytes(state: array2<bv8>)
    requires IsState(state)
    modifies state
    ensures View(state) == SubBytes(old(View(state)))
  {
    hide Sbox, View;
    ghost var todo := View(state);
    ghost var done := SubBytes(todo);
    Viewed(state, todo);
    for r := 0 to 4
      invariant Rows(state, r, 0, done, todo)
    {
      for c := 0 to 4
        invariant Rows(state, r, c, done, todo)
      {
        state[r, c] := Sbox(state[r, c]);
      }
    }
    Viewed(state, done);
  }

  method UnsubstituteBytes(state: array2<bv8>)
    requires IsState(state)
    modifies state
    ensures View(state) == InvSubBytes(old(View(state)))
  {
    hide InvSbox, View;
    ghost var todo := View(state);
    ghost var done := InvSubBytes(todo);
    Viewed(state, todo);
    for r := 0 to 4
      invariant Rows(state, r, 0, done, todo)
    {
      for c := 0 to 4
        invariant Rows(state, r, c, done, todo)
      {
        state[r, c] := InvSbox(state[r, c]);
      }
    }
    Viewed(state, done);
  }

  lemma ViewList(state: array2<bv8>)
    requires IsState(state)
    ensures View(state) == [state[0, 0], state[1, 0], state[2, 0], state[3, 0], state[0, 1], state[1, 1], state[2, 1], state[3, 1],
                            state[0, 2], state[1, 2], state[2, 2], state[3, 2], state[0, 3], state[1, 3], state[2, 3], state[3, 3]]
  {
  }

  lemma RightList()
    ensures Right(0) == 0 && Right(1) == 5 && Right(2) == 10 && Right(3) == 15
    ensures Right(4) == 4 && Right(5) == 9 && Right(6) == 14 && Right(7) == 3
    ensures Right(8) == 8 && Right(9) == 13 && Right(10) == 2 && Right(11) == 7
    ensures Right(12) == 12 && Right(13) == 1 && Right(14) == 6 && Right(15) == 11
  {
  }

  lemma LeftList()
    ensures Left(0) == 0 && Left(1) == 13 && Left(2) == 10 && Left(3) == 7
    ensures Left(4) == 4 && Left(5) == 1 && Left(6) == 14 && Left(7) == 11
    ensures Left(8) == 8 && Left(9) == 5 && Left(10) == 2 && Left(11) == 15
    ensures Left(12) == 12 && Left(13) == 9 && Left(14) == 6 && Left(15) == 3
  {
  }

  lemma ShiftRowsList(b: Block)
    ensures ShiftRows(b) == [b[0], b[5], b[10], b[15], b[4], b[9], b[14], b[3], b[8], b[13], b[2], b[7], b[12], b[1], b[6], b[11]]
  {
    hide Right;
    RightList();
  }

  lemma InvShiftRowsList(b: Block)
    ensures InvShiftRows(b) == [b[0], b[13], b[10], b[7], b[4], b[1], b[14], b[11], b[8], b[5], b[2], b[15], b[12], b[9], b[6], b[3]]
  {
    hide Left;
    LeftList();
  }

  method RotateRows(state: array2<bv8>)
    requires IsState(state)
    modifies state
    ensures View(state) == ShiftRows(old(View(state)))
  {
    hide View, ShiftRows;
    ViewList(state);
    ShiftRowsList(View(state));
    var temp := state[1, 0];
    state[1, 0] := state[1, 1];
    state[1, 1] := state[1, 2];
    state[1, 2] := state[1, 3];
    state[1, 3] := temp;

    temp := state[2, 0];
    state[2, 0] := state[2, 2];
    state[2, 2] := temp;
    temp := state[2, 1];
    state[2, 1] := state[2, 3];
    state[2, 3] := temp;

    temp := state[3, 3];
    state[3, 3] := state[3, 2];
    state[3, 2] := state[3, 1];
    state[3, 1] := state[3, 0];
    state[3, 0] := temp;
    ViewList(state);
  }

  method UnrotateRows(state: array2<bv8>)
    requires IsState(state)
    modifies state
    ensures View(state) == InvShiftRows(old(View(state)))
  {
    hide View, InvShiftRows;
    ViewList(state);
    InvShiftRowsList(View(state));
    var temp := state[1, 3];
    state[1, 3] := state[1, 2];
    state[1, 2] := state[1, 1];
    state[1, 1] := state[1, 0];
    state[1, 0] := temp;

    temp := state[2, 0];
    state[2, 0] := state[2, 2];
    state[2, 2] := temp;
    temp := state[2, 1];
    state[2, 1] := state[2, 3];
    state[2, 3] := temp;

    temp := state[3, 0];
    state[3, 0] := state[3, 1];
    state[3, 1] := state[3, 2];
    state[3, 2] := state[3, 3];
    state[3, 3] := temp;
    ViewList(state);
  }

  lemma ColumnOf(b: Block, c: nat, r: nat)
    requires c < 4 && r < 4
    ensures MixColumns(b)[r + 4 * c]
         == MixRow(b[4 * c + r], b[4 * c + Wrap(r + 1)], b[4 * c + Wrap(r + 2)], b[4 * c + Wrap(r + 3)])
    ensures InvMixColumns(b)[r + 4 * c]
         == InvMixRow(b[4 * c + r], b[4 * c + Wrap(r + 1)], b[4 * c + Wrap(r + 2)], b[4 * c + Wrap(r + 3)])
  {
    hide MixRow, InvMixRow, Down;
    DownFrom(c, r, 1);
    DownFrom(c, r, 2);
    DownFrom(c, r, 3);
  }

  lemma WholeColumn(b: Block, c: nat, s0: bv8, s1: bv8, s2: bv8, s3: bv8)
    requires c < 4
    requires s0 == b[4 * c] && s1 == b[1 + 4 * c] && s2 == b[2 + 4 * c] && s3 == b[3 + 4 * c]
    ensures MixColumns(b)[4 * c] == MixRow(s0, s1, s2, s3)
    ensures MixColumns(b)[1 + 4 * c] == MixRow(s1, s2, s3, s0)
    ensures MixColumns(b)[2 + 4 * c] == MixRow(s2, s3, s0, s1)
    ensures MixColumns(b)[3 + 4 * c] == MixRow(s3, s0, s1, s2)
    ensures InvMixColumns(b)[4 * c] == InvMixRow(s0, s1, s2, s3)
    ensures InvMixColumns(b)[1 + 4 * c] == InvMixRow(s1, s2, s3, s0)
    ensures InvMixColumns(b)[2 + 4 * c] == InvMixRow(s2, s3, s0, s1)
    ensures InvMixColumns(b)[3 + 4 * c] == InvMixRow(s3, s0, s1, s2)
  {
    hide MixColumns, InvMixColumns, MixRow, InvMixRow;
    ColumnOf(b, c, 0);
    ColumnOf(b, c, 1);
    ColumnOf(b, c, 2);
    ColumnOf(b, c, 3);
  }

  lemma StillToDo(state: array2<bv8>, c: nat, done: Block, todo: Block)
    requires IsState(state) && c < 4
    requires Columns(state, c, done, todo)
    ensures state[0, c] == todo[4 * c] && state[1, c] == todo[1 + 4 * c]
    ensures state[2, c] == todo[2 + 4 * c] && state[3, c] == todo[3 + 4 * c]
  {
  }

  lemma ColumnsViewed(state: array2<bv8>, done: Block, todo: Block)
    requires IsState(state)
    ensures Columns(state, 0, done, View(state))
    ensures Columns(state, 4, done, todo) ==> View(state) == done
  {
    hide View;
    Viewed(state, View(state));
    Viewed(state, done);
  }

  /** The entries `mix_columns` computes for one column. */
  method MixOne(s0: bv8, s1: bv8, s2: bv8, s3: bv8) returns (t0: bv8, t1: bv8, t2: bv8, t3: bv8)
    ensures t0 == MixRow(s0, s1, s2, s3) && t1 == MixRow(s1, s2, s3, s0)
    ensures t2 == MixRow(s2, s3, s0, s1) && t3 == MixRow(s3, s0, s1, s2)
  {
    hide Mul, Xor4;
    var d0, e0 := Twice(s0);
    var d1, e1 := Twice(s1);
    var d2, e2 := Twice(s2);
    var d3, e3 := Twice(s3);
    t0 := Xor4(d0, e1, s2, s3);
    t1 := Xor4(s0, d1, e2, s3);
    t2 := Xor4(s0, s1, d2, e3);
    t3 := Xor4(e0, s1, s2, d3);
    Xor4Rotates(d1, e2, s3, s0);
    Xor4Rotates(d2, e3, s0, s1);
    Xor4Rotates(s1, d2, e3, s0);
    Xor4Rotates(e0, s1, s2, d3);
  }

  method Twice(s: bv8) returns (d: bv8, e: bv8)
    ensures d == Mul(s, 2) && e == Mul(s, 3)
  {
    hide Mul;
    d := GaloisMul(s, 2);
    e := GaloisMul(s, 3);
  }

  method MixColumnsInPlace(state: array2<bv8>)
    requires IsState(state)
    modifies state
    ensures View(state) == MixColumns(old(View(state)))
  {
    hide View, MixColumns, MixRow, Columns;
    ghost var todo := View(state);
    ghost var done := MixColumns(todo);
    ColumnsViewed(state, done, todo);
    for c := 0 to 4
      invariant Columns(state, c, done, todo)
    {
      StillToDo(state, c, done, todo);
      WholeColumn(todo, c, state[0, c], state[1, c], state[2, c], state[3, c]);
      var t0, t1, t2, t3 := MixOne(state[0, c], state[1, c], state[2, c], state[3, c]);
      PutColumn(state, c, t0, t1, t2, t3, done, todo);
    }
    ColumnsViewed(state, done, todo);
  }

  /** The four products `inv_mix_columns` needs of one byte. */
  method InvProducts(s: bv8) returns (e: bv8, b: bv8, d: bv8, n: bv8)
    ensures e == Mul(s, 14) && b == Mul(s, 11) && d == Mul(s, 13) && n == Mul(s, 9)
  {
    hide Mul;
    e := GaloisMul(s, 0x0E);
    b := GaloisMul(s, 0x0B);
    d := GaloisMul(s, 0x0D);
    n := GaloisMul(s, 0x09);
  }

  method UnmixOne(s0: bv8, s1: bv8, s2: bv8, s3: bv8) returns (t0: bv8, t1: bv8, t2: bv8, t3: bv8)
    ensures t0 == InvMixRow(s0, s1, s2, s3) && t1 == InvMixRow(s1, s2, s3, s0)
    ensures t2 == InvMixRow(s2, s3, s0, s1) && t3 == InvMixRow(s3, s0, s1, s2)
  {
    hide Mul, Xor4;
    var e0, b0, d0, n0 := InvProducts(s0);
    var e1, b1, d1, n1 := InvProducts(s1);
    var e2, b2, d2, n2 := InvProducts(s2);
    var e3, b3, d3, n3 := InvProducts(s3);
    t0 := Xor4(e0, b1, d2, n3);
    t1 := Xor4(n0, e1, b2, d3);
    t2 := Xor4(d0, n1, e2, b3);
    t3 := Xor4(b0, d1, n2, e3);
    Xor4Rotates(e1, b2, d3, n0);
    Xor4Rotates(e2, b3, d0, n1);
    Xor4Rotates(n1, e2, b3, d0);
    Xor4Rotates(b0, d1, n2, e3);
  }

  method UnmixColumnsInPlace(state: array2<bv8>)
    requires IsState(state)
    modifies state
    ensures View(state) == InvMixColumns(old(View(state)))
  {
    hide View, InvMixColumns, InvMixRow, Columns;
    ghost var todo := View(state);
    ghost var done := InvMixColumns(todo);
    ColumnsViewed(state, done, todo);
    for c := 0 to 4
      invariant Columns(state, c, done, todo)
    {
      StillToDo(state, c, done, todo);
      WholeColumn(todo, c, state[0, c], state[1, c], state[2, c], state[3, c]);
      var t0, t1, t2, t3 := UnmixOne(state[0, c], state[1, c], state[2, c], state[3, c]);
      PutColumn(state, c, t0, t1, t2, t3, done, todo);
    }
    ColumnsViewed(state, done, todo);
  }

  // ---- The block cipher ------------------------------------------------------------------

  method LoadState(state: array2<bv8>, src: array<bv8>)
    requires IsState(state) && src.Length == 16
    modifies state
    ensures View(state) == src[..]
  {
    hide View;
    ghost var todo := View(state);
    Viewed(state, todo);
    for r := 0 to 4
      invariant Rows(state, r, 0, src[..], todo)
    {
      for c := 0 to 4
        invariant Rows(state, r, c, src[..], todo)
      {
        state[r, c] := src[r + c * 4];
      }
    }
    Viewed(state, src[..]);
  }

  method StoreState(state: array2<bv8>, dst: array<bv8>)
    requires IsState(state) && dst.Length == 16
    modifies dst
    ensures dst[..] == View(state)
  {
    hide View;
    Viewed(state, View(state));
    for r := 0 to 4
      invariant forall i, c :: 0 <= i < r && 0 <= c < 4 ==> dst[i + c * 4] == state[i, c]
    {
      for c := 0 to 4
        invariant forall i, k :: 0 <= i < r && 0 <= k < 4 ==> dst[i + k * 4] == state[i, k]
        invariant forall k :: 0 <= k < c ==> dst[r + k * 4] == state[r, k]
      {
        dst[r + c * 4] := state[r, c];
      }
    }
    StoredAll(state, dst);
  }

  lemma StoredAll(state: array2<bv8>, dst: array<bv8>)
    requires IsState(state) && dst.Length == 16
    requires forall i, c :: 0 <= i < 4 && 0 <= c < 4 ==> dst[i + c * 4] == state[i, c]
    ensures dst[..] == View(state)
  {
    Viewed(state, dst[..]);
  }

  /** `aes256_encrypt_block`; the two buffers may be the same. */
  method EncryptBlock(w: array<bv32>, src: array<bv8>, dst: array<bv8>)
    requires w.Length == 60 && src.Length == 16 && dst.Length == 16
    modifies dst
    ensures dst[..] == Encrypt(w[..], old(src[..]))
  {
    hide View, SubBytes, ShiftRows, MixColumns, AddRoundKey;
    var state := new bv8[4, 4];
    LoadState(state, src);
    ApplyRoundKey(state, w, 0);
    for round := 1 to 14
      invariant View(state) == Rounds(w[..], old(src[..]), round - 1)
    {
      SubstituteBytes(state);
      RotateRows(state);
      MixColumnsInPlace(state);
      ApplyRoundKey(state, w, round);
    }
    SubstituteBytes(state);
    RotateRows(state);
    ApplyRoundKey(state, w, 14);
    StoreState(state, dst);
  }

  /** `aes256_decrypt_block`; the two buffers may be the same. */
  method DecryptBlock(w: array<bv32>, src: array<bv8>, dst: array<bv8>)
    requires w.Length == 60 && src.Length == 16 && dst.Length == 16
    modifies dst
    ensures dst[..] == Decrypt(w[..], old(src[..]))
  {
    hide View, InvSubBytes, InvShiftRows, InvMixColumns, AddRoundKey;
    var state := new bv8[4, 4];
    LoadState(state, src);
    ApplyRoundKey(state, w, 14);
    for round := 14 downto 1
      invariant View(state) == InvRounds(w[..], old(src[..]), round)
    {
      UnrotateRows(state);
      UnsubstituteBytes(state);
      ApplyRoundKey(state, w, round);
      UnmixColumnsInPlace(state);
    }
    UnrotateRows(state);
    UnsubstituteBytes(state);
    ApplyRoundKey(state, w, 0);
    StoreState(state, dst);
  }
}
