/** Signer and writable flags from the position of a key, in eight-bit arithmetic. */
module AccountFlags {
  import opened GoArith

  /** The counts in a message header. */
  datatype Header = Header(signers: byte, readonlySigned: byte, readonlyUnsigned: byte)

  datatype Flags = Flags(isWritable: bool, isSigner: bool)

  /** makeSignerAccount: four range tests in turn, a later one overriding an earlier one, on the low eight bits of
      index and length. */
  function MakeSignerAccount(index: int, length: int, h: Header): Flags {
    var i, end := AsUint8(index), AsUint8(length);
    var writableSigners, writable := AsUint8(h.signers - h.readonlySigned), AsUint8(end - h.readonlyUnsigned);
    var f0 := if i < writableSigners then Flags(true, true) else Flags(false, false);
    var f1 := if i >= writableSigners && i < h.signers then Flags(false, true) else f0;
    var f2 := if i >= h.signers && i < writable then Flags(true, false) else f1;
    if i >= writable && i < end then Flags(false, false) else f2
  }

  /** The layout of the keys: writable signers, readonly signers, writable others, readonly others. */
  function Layout(index: int, length: int, h: Header): Flags {
    Flags(index < h.signers - h.readonlySigned || h.signers <= index < length - h.readonlyUnsigned, index < h.signers)
  }

  /** What a header promises of its own counts. */
  predicate Consistent(length: nat, h: Header) {
    h.readonlySigned <= h.signers && h.signers + h.readonlyUnsigned <= length
  }

  ghost predicate FlagsFollowLayout(length: nat, h: Header) {
    forall index | 0 <= index < length :: MakeSignerAccount(index, length, h) == Layout(index, length, h)
  }

  /** An index whose flags are wrong once the length no longer fits in eight bits. */
  function Misplaced(length: nat, h: Header): nat {
    if length == 256 then h.signers
    else if h.signers > 0 then (if MakeSignerAccount(0, length, h).isSigner then 256 else 0)
    else if AsUint8(length - h.readonlyUnsigned) == 0 then 0
    else if length - h.readonlyUnsigned >= 256 then AsUint8(length - h.readonlyUnsigned)
    else 256
  }

  lemma MisplacedIsWrong(length: nat, h: Header)
    requires Consistent(length, h) && 256 <= length && !(length == 256 && h.readonlyUnsigned > 0)
    ensures Misplaced(length, h) < length
    ensures MakeSignerAccount(Misplaced(length, h), length, h) != Layout(Misplaced(length, h), length, h)
  {
  }

  lemma FlagsRight(index: int, length: nat, h: Header)
    requires Consistent(length, h) && 0 <= index < length
    requires length <= 255 || (length == 256 && h.readonlyUnsigned > 0)
    ensures MakeSignerAccount(index, length, h) == Layout(index, length, h)
  {
  }

  /** The flags of all keys follow the layout exactly when there are at most 255 keys, or 256 of which some are
      readonly and unsigned. */
  lemma FlagsFollowLayoutIff(length: nat, h: Header)
    requires Consistent(length, h)
    ensures FlagsFollowLayout(length, h) <==> length <= 255 || (length == 256 && h.readonlyUnsigned > 0)
  {
    if length <= 255 || (length == 256 && h.readonlyUnsigned > 0) {
      forall index | 0 <= index < length
        ensures MakeSignerAccount(index, length, h) == Layout(index, length, h)
      {
        FlagsRight(index, length, h);
      }
    } else {
      MisplacedIsWrong(length, h);
    }
  }

  /** What the tests give for any header, also one whose counts overlap, as long as the keys fit in eight bits: readonly
      unsigned keys are taken from the end, over any signers there, and more readonly signers than signers make all of
      them writable. */
  lemma FlagsOfAnyHeader(index: int, length: nat, h: Header)
    requires 0 <= index < length <= 255
    ensures MakeSignerAccount(index, length, h) ==
      if h.readonlyUnsigned <= length && index >= length - h.readonlyUnsigned then Flags(false, false)
      else if index < h.signers then Flags(h.readonlySigned > h.signers || index < h.signers - h.readonlySigned, true)
      else Flags(true, false)
  {
  }

  function CountSigners(n: nat, length: nat, h: Header): nat {
    if n == 0 then 0
    else CountSigners(n - 1, length, h) + (if MakeSignerAccount(n - 1, length, h).isSigner then 1 else 0)
  }

  function CountWritable(n: nat, length: nat, h: Header): nat {
    if n == 0 then 0
    else CountWritable(n - 1, length, h) + (if MakeSignerAccount(n - 1, length, h).isWritable then 1 else 0)
  }

  function Smaller(a: int, b: int): int {
    if a < b then a else b
  }

  lemma {:induction false} CountsUpTo(n: nat, length: nat, h: Header)
    requires Consistent(length, h) && n <= length && FlagsFollowLayout(length, h)
    ensures CountSigners(n, length, h) == Smaller(n, h.signers)
    ensures CountWritable(n, length, h) ==
      Smaller(n, h.signers - h.readonlySigned)
      + (if n <= h.signers then 0 else Smaller(n, length - h.readonlyUnsigned) - h.signers)
  {
    if n > 0 {
      CountsUpTo(n - 1, length, h);
      assert MakeSignerAccount(n - 1, length, h) == Layout(n - 1, length, h);
    }
  }

  /** As many signers and as many writable keys as the header announces. */
  lemma CountsMatchHeader(length: nat, h: Header)
    requires Consistent(length, h) && (length <= 255 || (length == 256 && h.readonlyUnsigned > 0))
    ensures CountSigners(length, length, h) == h.signers
    ensures CountWritable(length, length, h) == length - h.readonlySigned - h.readonlyUnsigned
  {
    FlagsFollowLayoutIff(length, h);
    CountsUpTo(length, length, h);
  }
}
