/** The content width of internal/ui/common/styles.go: the terminal width less
    a margin of four, capped at MaxContentWidth and never below forty. */
module Styles {
  const MaxContentWidth := 80
  const MinContentWidth := 40

  function GetContentWidth(terminalWidth: int): (width: int)
    ensures MinContentWidth <= width <= MaxContentWidth
    ensures MinContentWidth + 4 <= terminalWidth <= MaxContentWidth + 4 ==> width == terminalWidth - 4
    ensures terminalWidth >= MaxContentWidth + 4 ==> width == MaxContentWidth
    ensures terminalWidth <= MinContentWidth + 4 ==> width == MinContentWidth
  {
    var w := terminalWidth - 4;
    var capped := if w > MaxContentWidth then MaxContentWidth else w;
    if capped < MinContentWidth then MinContentWidth else capped
  }

  /** A wider terminal never gives a narrower content area. */
  lemma Monotone(a: int, b: int)
    requires a <= b
    ensures GetContentWidth(a) <= GetContentWidth(b)
  {
  }

  /** The width cases of result_test.go. */
  lemma Vectors()
    ensures GetContentWidth(50) == 46
    ensures GetContentWidth(100) == 80
    ensures GetContentWidth(200) == 80
    ensures GetContentWidth(30) == 40
  {
  }
}
