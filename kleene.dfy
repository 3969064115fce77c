/**
 * SQL's three-valued logic. A comparison against a NULL value is neither
 * true nor false but Unknown; AND and OR extend the two-valued connectives
 * as in Kleene's strong logic, and a WHERE clause keeps a row only when its
 * predicate is True.
 */
module Kleene {

  datatype Truth = True | False | Unknown

  /** A definite truth value. */
  function FromBool(b: bool): (t: Truth)
    ensures t != Unknown
    ensures t == True <==> b
  {
    if b then True else False
  }

  /** SQL AND: False wins, then Unknown. */
  function And3(a: Truth, b: Truth): (r: Truth)
    ensures r == True <==> a == True && b == True
    ensures r == False <==> a == False || b == False
  {
    match (a, b)
    case (False, _) => False
    case (_, False) => False
    case (True, True) => True
    case _ => Unknown
  }

  /** SQL OR: True wins, then Unknown. */
  function Or3(a: Truth, b: Truth): (r: Truth)
    ensures r == True <==> a == True || b == True
    ensures r == False <==> a == False && b == False
  {
    match (a, b)
    case (True, _) => True
    case (_, True) => True
    case (False, False) => False
    case _ => Unknown
  }
}
