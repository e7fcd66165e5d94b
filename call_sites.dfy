/**
 * What the fixers' regular expressions capture from one line of C# test
 * code. The matching itself is outside the model: a matcher is a function
 * from a line to its groups, `None` when `re.search` finds nothing.
 */
module CallSites {
  import opened Wrappers

  /** `(.*)\.RedactArea\(([^,]+),\s*([^,]+),\s*<dpi>\)(.*)`: two arguments and a DPI. */
  datatype DpiCall = DpiCall(prefix: string, arg1: string, arg2: string, dpi: string, suffix: string)

  /** `(.*)\.RedactArea\(([^,]+),\s*([^)]+)\);(.*)`: two arguments. */
  datatype TwoArgCall = TwoArgCall(prefix: string, arg1: string, arg2: string, suffix: string)

  /** Three arguments and a DPI. */
  datatype ThreeArgDpiCall = ThreeArgDpiCall(prefix: string, arg1: string, arg2: string, arg3: string,
                                             dpi: string, suffix: string)

  /** Three arguments and two `renderDpi:` values. */
  datatype DoubleDpiCall = DoubleDpiCall(prefix: string, arg1: string, arg2: string, arg3: string,
                                         dpi1: string, dpi2: string, suffix: string)

  /** `(.*)\.RedactMatches\(([^,]+),\s*([^,]+),\s*([^)]+)\)(.*)`. */
  datatype MatchesCall = MatchesCall(prefix: string, arg1: string, arg2: string, arg3: string, suffix: string)
}
