/** dynamic_string_buffer and dynamic_vector_buffer, DynamicBuffer_v1 operations. */
module DynamicBuffer {
  import opened Bytes

  /** The two class templates differ only in how an unprepared buffer consumes. */
  datatype Storage = String | Vector

  /**
   size_ starts as the largest size_t, which no container reaches; here None. The first prepare
   replaces it by the container's size and so selects the v1 behaviour.
   */
  class DynamicBuffer {
    const storage: Storage
    const maxSize: nat
    var text: seq<Byte>
    var size: Option<nat>

    ghost predicate Valid()
      reads this
    {
      size.Some? ==> size.value <= |text|
    }

    /** data(): the input sequence. */
    ghost function Input(): seq<Byte>
      requires Valid()
      reads this
    {
      text[..if size.Some? then size.value else |text|]
    }

    /** The region returned by the last prepare, if nothing intervened. */
    ghost function Output(): seq<Byte>
      requires Valid()
      reads this
    {
      text[|Input()|..]
    }

    /** The length of data(), except while an initial container longer than the maximum is unprepared. */
    function Size(): (n: nat)
      requires Valid()
      reads this
      ensures n == |Input()| <==> size.Some? || |Input()| <= maxSize
      ensures n != |Input()| ==> n == maxSize < |Input()|
    {
      if size.Some? then size.value else Min(|text|, maxSize)
    }

    constructor (storage': Storage, initial: seq<Byte>, maximumSize: nat)
      ensures Valid() && storage == storage' && maxSize == maximumSize && Input() == initial && size.None?
    {
      storage, text, size, maxSize := storage', initial, None, maximumSize;
    }

    method Prepare(n: nat) returns (region: Option<nat>)
      requires Valid()
      modifies this
      ensures Valid() && (region.Some? <==> old(Size()) + n <= maxSize)
      ensures Input() == old(Input())
      ensures region.Some? ==> size.Some? && region.value == |Input()| && |Output()| == n
      ensures region.None? ==> text == old(text) && size == old(size)
    {
      if Size() > maxSize || maxSize - Size() < n { return None; }
      if size.None? { size := Some(|text|); }
      text := Resized(text, size.value + n);
      region := Some(size.value);
    }

    /** A client writes into the prepared region. */
    method WriteOutput(data: seq<Byte>)
      requires Valid() && size.Some? && |data| <= |Output()|
      modifies `text
      ensures Valid() && Input() == old(Input())
      ensures Output() == data + old(Output())[|data|..]
    {
      text := text[..size.value] + data + text[size.value + |data|..];
    }

    /** commit discards what is left of the output sequence. */
    method Commit(n: nat)
      requires Valid() && size.Some?
      modifies this
      ensures Valid() && size.Some? && Output() == []
      ensures Input() == old(Input()) + old(Output())[..Min(n, |old(Output())|)]
    {
      size := Some(size.value + Min(n, |text| - size.value));
      text := Resized(text, size.value);
    }

    /** An unprepared vector drops no more than size(), which its maximum bounds. */
    method Consume(n: nat)
      requires Valid()
      modifies this
      ensures Valid()
      ensures Input() == old(Input())[Min(n, if storage.Vector? then old(Size()) else |old(Input())|)..]
    {
      if size.Some? {
        var k := Min(n, size.value);
        text := text[k..];
        size := Some(size.value - k);
      } else {
        match storage
        case String => text := text[Min(n, |text|)..];
        case Vector => text := text[Min(n, Size())..];
      }
    }
  }
}
