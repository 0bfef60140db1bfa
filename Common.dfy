/** Vocabulary shared by the two expression designs: the runtime exceptions their
    Java code can raise, a result type carrying them, and the string building that
    the toString methods of Multiply and Average perform. */
module Common {

  /** The unchecked exceptions thrown by the expression classes. */
  datatype Fault =
    | NoSuchElement            // LinkedList.getFirst() on an empty child list
    | IndexOutOfBounds         // LinkedList.get(i) with i outside the list
    | StringIndexOutOfBounds   // String.substring(0, n) with n < 0

  /** A value, or the exception that was thrown instead. */
  datatype Result<+T> = Ok(value: T) | Err(fault: Fault) {
    predicate IsFailure() { Err? }

    function PropagateFailure<U>(): Result<U>
      requires Err?
    {
      Err(fault)
    }

    function Extract(): T
      requires Ok?
    {
      value
    }
  }

  /** The parts with `sep` between neighbours and nowhere else. */
  function Join(parts: seq<string>, sep: string): string
  {
    if |parts| == 0 then ""
    else if |parts| == 1 then parts[0]
    else Join(parts[..|parts| - 1], sep) + sep + parts[|parts| - 1]
  }

  /** What the accumulator loops build before truncating: every part followed by `sep`. */
  function Trailing(parts: seq<string>, sep: string): string
  {
    if |parts| == 0 then "" else Trailing(parts[..|parts| - 1], sep) + parts[|parts| - 1] + sep
  }

  /** Dropping the last separator from the accumulated string leaves exactly the join. */
  lemma {:induction false} TrailingIsJoin(parts: seq<string>, sep: string)
    requires |parts| > 0
    ensures Trailing(parts, sep) == Join(parts, sep) + sep
  {
    var n := |parts|;
    if n > 1 {
      TrailingIsJoin(parts[..n - 1], sep);
      assert parts[..n - 1][..n - 2] == parts[..n - 2];
    }
  }

  /** Multiply.toString: the children's texts joined by " * ", no parentheses. With no
      children the accumulator stays "" and substring(0, -3) throws. */
  function MultiplyText(parts: seq<string>): Result<string>
  {
    if |parts| == 0 then Err(StringIndexOutOfBounds) else Ok(Join(parts, " * "))
  }

  /** Average.toString: "avg(" + the texts joined by ", " + ")". With no children the
      truncation substring(0, 2) of "avg(" leaves "av", so the text is "av)". */
  function AverageText(parts: seq<string>): string
  {
    if |parts| == 0 then "av)" else "avg(" + Join(parts, ", ") + ")"
  }

  function SinText(arg: string): string { "sin(pi * " + arg + ")" }

  function CosText(arg: string): string { "cos(pi * " + arg + ")" }

  /** The Multiply accumulator after the loop: "" exactly when there were no children,
      and otherwise at least the three characters of the last " * ", which
      substring(0, length - 3) removes to leave the join. */
  lemma MultiplyTruncation(parts: seq<string>)
    ensures |Trailing(parts, " * ")| < 3 <==> |parts| == 0
    ensures |parts| > 0 ==>
      Ok(Trailing(parts, " * ")[..|Trailing(parts, " * ")| - 3]) == MultiplyText(parts)
  {
    if |parts| > 0 {
      TrailingIsJoin(parts, " * ");
      var j := Join(parts, " * ");
      assert (j + " * ")[..|j + " * "| - 3] == j;
    }
  }

  /** The Average accumulator after the loop is "avg(" followed by the trailing form;
      substring(0, length - 2) + ")" then gives AverageText. */
  lemma AverageTruncation(parts: seq<string>)
    ensures var acc := "avg(" + Trailing(parts, ", ");
      |acc| >= 2 && acc[..|acc| - 2] + ")" == AverageText(parts)
  {
    var acc := "avg(" + Trailing(parts, ", ");
    if |parts| > 0 {
      TrailingIsJoin(parts, ", ");
      var j := Join(parts, ", ");
      assert acc == "avg(" + j + ", ";
      assert acc[..|acc| - 2] == "avg(" + j;
    } else {
      assert acc == "avg(";
      assert acc[..2] == "av";
    }
  }
}
