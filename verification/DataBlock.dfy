/** One block of received bytes, counting the bytes that somebody still needs. */
module DataBlocks {
  import opened Octets

  class DataBlock {
    const data: array<octet>
    var size: nat
    var nBytesRef: nat

    /** `DataBlock()` followed by `init(len)`. */
    constructor (len: nat)
      ensures fresh(data) && data.Length == len && size == 0 && nBytesRef == 0
    {
      data := new octet[len](_ => '\0');
      size, nBytesRef := 0, 0;
    }

    method Acquire(len: nat)
      modifies this`nBytesRef
      ensures nBytesRef == old(nBytesRef) + len
    {
      nBytesRef := nBytesRef + len;
    }

    method Release(len: nat)
      requires nBytesRef >= len
      modifies this`nBytesRef
      ensures nBytesRef == old(nBytesRef) - len
    {
      nBytesRef := nBytesRef - len;
    }

    method Occupy(len: nat)
      requires size + len <= data.Length
      modifies this
      ensures size == old(size) + len && nBytesRef == old(nBytesRef) + len
    {
      Acquire(len);
      size := size + len;
    }

    method Reset()
      modifies this
      ensures size == 0 && nBytesRef == 0
    {
      nBytesRef := 0;
      size := 0;
    }

    function GetWriteLeft(): nat
      requires size <= data.Length
      reads this
    {
      data.Length - size
    }

    predicate Reusable()
      reads this
    {
      nBytesRef == 0
    }

    /** Copies received bytes to the write pointer, without committing them. */
    method Fill(bytes: Bytes)
      requires size + |bytes| <= data.Length
      modifies data
      ensures data[..size] == old(data[..size])
      ensures data[size..size + |bytes|] == bytes
    {
      var i := 0;
      while i < |bytes|
        invariant 0 <= i <= |bytes|
        invariant data[..size] == old(data[..size])
        invariant data[size..size + i] == bytes[..i]
      {
        data[size + i] := bytes[i];
        i := i + 1;
      }
    }

    /** Position of the first `c` at or after `since`, or `size`. */
    method Find(c: octet, since: nat) returns (pos: nat)
      requires since <= size <= data.Length
      ensures since <= pos <= size && c !in data[since..pos]
      ensures pos < size ==> data[pos] == c
    {
      pos := since;
      while pos < size && data[pos] != c
        invariant since <= pos <= size && c !in data[since..pos]
      {
        assert data[since..pos + 1] == data[since..pos] + [data[pos]];
        pos := pos + 1;
      }
    }

    /** Position of the first byte at or after `since` that is not a digit, or `size`. */
    method FindNotNumeric(since: nat) returns (pos: nat)
      requires since <= size <= data.Length
      ensures since <= pos <= size && AllDigits(data[since..pos])
      ensures pos < size ==> !IsDigit(data[pos])
    {
      pos := since;
      while pos < size && IsDigit(data[pos])
        invariant since <= pos <= size && AllDigits(data[since..pos])
      {
        pos := pos + 1;
      }
    }
  }
}
