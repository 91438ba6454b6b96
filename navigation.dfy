/** Folder navigation shared by both new-tab pages: the folder shown, a stack
    of the folders left behind, drill-down, back and breadcrumb jumps. */
module Navigation {

  /** Where the page is: the folder shown and the folders left behind on the
      way down, the most recent last. */
  datatype Nav<T> = Nav(current: T, history: seq<T>)

  /** `handleFolderClick`: the folder shown so far goes on top of the history
      and the clicked folder is shown. */
  function Open<T>(s: Nav<T>, folder: T): (r: Nav<T>)
    ensures r.current == folder
    ensures |r.history| == |s.history| + 1 && r.history[|s.history|] == s.current
    ensures r.history[..|s.history|] == s.history
  {
    Nav(folder, s.history + [s.current])
  }

  /** `handleBack`: with an empty history nothing changes; otherwise the top
      entry is shown and removed from the history. */
  function Back<T>(s: Nav<T>): (r: Nav<T>)
    ensures s.history == [] ==> r == s
    ensures s.history != [] ==> r.history + [r.current] == s.history
  {
    if |s.history| > 0 then Nav(s.history[|s.history| - 1], s.history[..|s.history| - 1])
    else s
  }

  /** The breadcrumb at position `i`: that history entry is shown and the
      history is cut to the entries before it. */
  function Jump<T>(s: Nav<T>, i: int): (r: Nav<T>)
    requires 0 <= i < |s.history|
    ensures r.current == s.history[i] && r.history == s.history[..i]
    ensures i == 0 ==> r.history == []
  {
    Nav(s.history[i], s.history[..i])
  }

  /** Opening a folder and going back restores the state before the click. */
  lemma OpenThenBack<T>(s: Nav<T>, folder: T)
    ensures Back(Open(s, folder)) == s
  {
    assert (s.history + [s.current])[..|s.history|] == s.history;
  }

  /** `n` presses of the back button. */
  function BackTimes<T>(s: Nav<T>, n: nat): Nav<T>
    decreases n
  {
    if n == 0 then s else BackTimes(Back(s), n - 1)
  }

  /** Clicking breadcrumb `i` lands where pressing back once per later
      history entry would. */
  lemma {:induction false} JumpIsRepeatedBack<T>(s: Nav<T>, i: int)
    requires 0 <= i < |s.history|
    ensures Jump(s, i) == BackTimes(s, |s.history| - i)
    decreases |s.history|
  {
    var n := |s.history|;
    var b := Back(s);
    assert b.history == s.history[..n - 1];
    if i < n - 1 {
      JumpIsRepeatedBack(b, i);
      assert b.history[..i] == s.history[..i];
    }
  }
}
