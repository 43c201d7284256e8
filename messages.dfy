/**
 The values the worker writes onto the pipe and the supervisor reads back one
 at a time, with the Ruby notions the reader applies to them: truthiness,
 `to_s`, what `gets` returns once the pipe is drained, and the
 case-insensitive lookup of a `Rack::Utils::HeaderHash`.
 */
module Messages {
  import opened RubyText

  /** A response header as a (name, value) pair. */
  type Field = (string, string)

  /**
   One value read from the pipe. `Nil` is what `gets` gives once the worker
   has written everything; `False` and `Flag(false)` are both Ruby `false`
   (the first as the "no status" sentinel, the second as a body-permitted
   answer); `Headers` keeps the pairs in the order of the Ruby hash.
   */
  datatype Msg =
    | Nil
    | False
    | Status(code: int)
    | Flag(value: bool)
    | Headers(fields: seq<Field>)
    | Chunk(data: seq<byte>)
    | Done

  /** Ruby truthiness: everything except `nil` and `false`. */
  predicate Truthy(m: Msg) {
    !(m.Nil? || m.False? || (m.Flag? && !m.value))
  }

  /** The condition that ends the body loop: a falsy read or the `:done` symbol. */
  predicate Ends(m: Msg) {
    !Truthy(m) || m.Done?
  }

  /** The value returned by the read at position `i` of the pipe (`nil` past its end). */
  function Read(q: seq<Msg>, i: nat): Msg {
    if i < |q| then q[i] else Nil
  }

  /** What is left in the pipe after `k` reads. */
  function Drop(q: seq<Msg>, k: nat): seq<Msg> {
    if k <= |q| then q[k..] else []
  }

  /** Reading past what earlier reads consumed. */
  lemma ReadAfterDrop(q: seq<Msg>, k: nat, i: nat)
    ensures Read(Drop(q, k), i) == Read(q, k + i)
    ensures Drop(Drop(q, k), i) == Drop(q, k + i)
  {
  }

  /**
   The text `to_s` gives, as bytes. The inspect text of a hash is kept only as
   far as the reader needs it: it opens with a brace and has no line feed.
   */
  function Text(m: Msg): seq<byte> {
    match m
    case Nil => []
    case False => Bytes("false")
    case Flag(b) => if b then Bytes("true") else Bytes("false")
    case Status(n) => IntText(n)
    case Headers(_) => Bytes("{...}")
    case Chunk(d) => d
    case Done => Bytes("done")
  }

  /** `String#downcase` on ASCII letters. */
  function Downcase(s: string): string {
    seq(|s|, i requires 0 <= i < |s| => if 'A' <= s[i] <= 'Z' then (s[i] as int + 32) as char else s[i])
  }

  /** Header names are compared without regard to case. */
  predicate SameName(a: string, b: string) {
    Downcase(a) == Downcase(b)
  }

  /**
   `HeaderHash.new(fields)[name]`: building the hash keeps, for each name up to
   case, the last pair written, so a lookup finds the value of the last field
   whose name equals `name` up to case, or nil when there is none.
   */
  function HeaderValue(fields: seq<Field>, name: string): (v: Option<string>)
    ensures v.None? <==> forall i | 0 <= i < |fields| :: !SameName(fields[i].0, name)
    ensures v.Some? ==> exists i | 0 <= i < |fields| ::
      && SameName(fields[i].0, name) && fields[i].1 == v.value
      && forall j | i < j < |fields| :: !SameName(fields[j].0, name)
    decreases |fields|
  {
    if fields == [] then None
    else if SameName(fields[|fields| - 1].0, name) then Some(fields[|fields| - 1].1)
    else HeaderValue(fields[..|fields| - 1], name)
  }

  /** The lookup gives the same answer for every spelling of a name. */
  lemma {:induction false} HeaderLookupIgnoresCase(fields: seq<Field>, a: string, b: string)
    requires Downcase(a) == Downcase(b)
    ensures HeaderValue(fields, a) == HeaderValue(fields, b)
    decreases |fields|
  {
    if fields != [] {
      HeaderLookupIgnoresCase(fields[..|fields| - 1], a, b);
    }
  }

  /** `@headers['Transfer-Encoding'] == 'chunked'`: the value must be exactly `chunked`. */
  predicate IsChunked(fields: seq<Field>) {
    HeaderValue(fields, "Transfer-Encoding") == Some("chunked")
  }

  /**
   The index of the read that ends the body loop: the first message that is
   falsy or `:done`, or the length of the pipe when there is none (the read
   past the end then returns nil).
   */
  function EndIndex(q: seq<Msg>): (k: nat)
    ensures k <= |q|
    ensures forall i | 0 <= i < k :: !Ends(q[i])
    ensures Ends(Read(q, k))
    decreases |q|
  {
    if q == [] || Ends(q[0]) then 0 else 1 + EndIndex(q[1..])
  }
}
