/** Shared vocabulary of the services: optional values, the exceptions they
    raise, JavaScript truthiness of optional strings, and fresh row ids. */
module Common {

  datatype Option<+T> = None | Some(value: T) {
    function GetOr(default: T): T {
      match this
      case Some(v) => v
      case None => default
    }
  }

  /** The NestJS exceptions the services throw, plus the error the database
      raises when a unique index is violated. */
  datatype Error =
    | NotFound(message: string)
    | BadRequest(message: string)
    | Conflict(message: string)
    | UniqueViolation(column: string)
    | ForeignKeyViolation(column: string)

  datatype Result<+T> = Ok(value: T) | Err(error: Error)

  /** An optional string that JavaScript treats as false in `!x` or `x || y`:
      absent (null/undefined) or empty. */
  predicate Blank(o: Option<string>) {
    o.None? || o.value == ""
  }

  /** One character as MySQL's default (case-insensitive) collation reads
      it: an ASCII capital reads as its small letter. */
  function FoldChar(c: char): (f: char)
    ensures 'A' <= c <= 'Z' ==> f as int == c as int + 32
    ensures !('A' <= c <= 'Z') ==> f == c
  {
    if 'A' <= c <= 'Z' then (c as int + 32) as char else c
  }

  /** The collation key of a text: each character folded in place. */
  function Fold(s: string): (t: string)
    ensures |t| == |s| && forall i :: 0 <= i < |s| ==> t[i] == FoldChar(s[i])
  {
    seq(|s|, i requires 0 <= i < |s| => FoldChar(s[i]))
  }

  /** Whether the database compares two texts as equal: an index lookup or
      a unique index treats them as the same value. */
  predicate SameText(a: string, b: string) {
    Fold(a) == Fold(b)
  }

  /** Two characters read alike exactly when they are equal or one is the
      capital of the other. */
  lemma FoldCharAlike(c: char, d: char)
    ensures FoldChar(c) == FoldChar(d) <==>
              c == d || ('a' <= c <= 'z' && d as int == c as int - 32)
                     || ('a' <= d <= 'z' && c as int == d as int - 32)
  {}

  /** Texts compare alike exactly when they have the same length and read
      alike character by character. */
  lemma SameTextPointwise(a: string, b: string)
    ensures SameText(a, b) <==> |a| == |b| && forall i :: 0 <= i < |a| ==> FoldChar(a[i]) == FoldChar(b[i])
  {
    if |a| == |b| && forall i :: 0 <= i < |a| ==> FoldChar(a[i]) == FoldChar(b[i]) {
      assert forall i :: 0 <= i < |a| ==> Fold(a)[i] == Fold(b)[i];
    }
  }

  /** Comparing alike is an equivalence: reflexive, symmetric, transitive,
      and a folded text reads like the original. */
  lemma SameTextEquivalence(a: string, b: string, c: string)
    ensures SameText(a, a) && SameText(a, Fold(a))
    ensures SameText(a, b) ==> SameText(b, a)
    ensures SameText(a, b) && SameText(b, c) ==> SameText(a, c)
  {
    assert Fold(Fold(a)) == Fold(a);
  }

  /** The case that distinguishes the collation from exact comparison: two
      e-mail addresses that differ only in case are the same value. */
  lemma CaseVariantsAlike()
    ensures SameText("Ana@x.com", "ana@x.com") && "Ana@x.com" != "ana@x.com"
  {
    assert Fold("Ana@x.com") == "ana@x.com";
    assert Fold("ana@x.com") == "ana@x.com";
  }

  /** Minutes in a day; times are whole minutes since the epoch. */
  const MinutesPerDay: int := 1440

  /** A bound on the lengths of the strings in a finite set. */
  ghost function MaxLength(used: set<string>): (n: nat)
    ensures forall s :: s in used ==> |s| <= n
    decreases used
  {
    if used == {} then 0
    else
      var s :| s in used;
      var m := MaxLength(used - {s});
      if |s| > m then |s| else m
  }

  /** A table can always be given another row: some string is not yet a key.
      This is what the services rely on when they ask for a fresh uuid. */
  lemma FreshIdExists(used: set<string>)
    ensures exists id: string :: id !in used
  {
    var id := seq(MaxLength(used) + 1, _ => 'x');
    assert id !in used;
  }
}
