/** The shared-memory queue between a writer and the peer's reader, as a bounded sequence. */
module MessageQueues {
  import opened Words

  class MessageQueue {
    const capacity: uint32
    var contents: seq<uint32>

    constructor (capacity: uint32)
      ensures this.capacity == capacity && contents == []
    {
      this.capacity := capacity;
      contents := [];
    }

    ghost predicate Valid()
      reads this
    {
      |contents| <= capacity
    }

    method AvailableToRead() returns (n: nat)
      ensures n == |contents|
    {
      n := |contents|;
    }

    method Write(words: seq<uint32>) returns (ok: bool)
      requires Valid()
      modifies this
      ensures Valid() && ok == (|old(contents)| + |words| <= capacity)
      ensures contents == if ok then old(contents) + words else old(contents)
    {
      ok := |contents| + |words| <= capacity;
      if ok {
        contents := contents + words;
      }
    }

    method Read(n: nat) returns (ok: bool, words: seq<uint32>)
      requires Valid()
      modifies this
      ensures Valid() && ok == (n <= |old(contents)|)
      ensures ok ==> words == old(contents)[..n] && contents == old(contents)[n..]
      ensures !ok ==> words == [] && contents == old(contents)
    {
      ok, words := n <= |contents|, [];
      if ok {
        words, contents := contents[..n], contents[n..];
      }
    }
  }
}
