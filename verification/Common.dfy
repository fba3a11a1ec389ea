/** Vocabulary shared by every module: byte strings, optional values, and the
    subtraction that the C counters use. */
module Common {

  type Byte = b: int | 0 <= b < 256
  type Bytes = seq<Byte>

  datatype Option<+T> = None | Some(value: T)

  /** `if (x >= n) x -= n; else x = 0;` */
  function SatSub(x: nat, n: nat): nat {
    if x >= n then x - n else 0
  }

  function Min(a: int, b: int): int {
    if a < b then a else b
  }

  function Max(a: int, b: int): int {
    if a < b then b else a
  }

  predicate PowerOfTwo(n: nat) {
    n == 1 || (n > 1 && n % 2 == 0 && PowerOfTwo(n / 2))
  }

  /** One more page of an iteration: what all of them hold together. */
  lemma MorePages<T(!new)>(all: seq<T>, pages: seq<seq<T>>, page: seq<T>)
    requires forall x :: x in all <==> exists i :: 0 <= i < |pages| && x in pages[i]
    ensures forall x :: x in all + page <==> exists i :: 0 <= i < |pages + [page]| && x in (pages + [page])[i]
  {
    var more := pages + [page];
    forall x ensures x in all + page <==> exists i :: 0 <= i < |more| && x in more[i] {
      if x in all {
        var i :| 0 <= i < |pages| && x in pages[i];
        assert x in more[i];
      }
      if x in page { assert x in more[|pages|]; }
      if i :| 0 <= i < |more| && x in more[i] {
        if i < |pages| { assert x in pages[i]; }
      }
    }
  }
}
