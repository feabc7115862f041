/**
  The build-index rule of SceneUtility.LoadNextScene and LoadPreviousScene.
  The engine is abstracted as the active scene's build index and the number
  of scenes in the build settings; the result is the build index the method
  asks the engine to load, or None when it asks for nothing.
 */
module Scenes {
  import opened Wrappers

  /** LoadNextScene: the index after the active one, if the build has it. */
  function NextSceneToLoad(current: int, sceneCount: int): (r: Option<int>)
    ensures r.Some? <==> current + 1 < sceneCount
    ensures r.Some? ==> r.value == current + 1
  {
    var next := current + 1;
    if next < sceneCount then Some(next) else None
  }

  /** LoadPreviousScene: the index before the active one, if it is not negative. */
  function PreviousSceneToLoad(current: int): (r: Option<int>)
    ensures r.Some? <==> current >= 1
    ensures r.Some? ==> r.value == current - 1 && r.value >= 0
  {
    var previous := current - 1;
    if previous >= 0 then Some(previous) else None
  }

  /** From an index the engine can report (a build index, or -1 for a scene
      outside the build), both rules only ever ask for a valid build index. */
  lemma RequestsStayInBuild(current: int, sceneCount: int)
    requires -1 <= current < sceneCount
    ensures NextSceneToLoad(current, sceneCount).Some? ==> 0 <= NextSceneToLoad(current, sceneCount).value < sceneCount
    ensures PreviousSceneToLoad(current).Some? ==> 0 <= PreviousSceneToLoad(current).value < sceneCount
  {
  }

  /** Going forward and then back returns to the scene one started from. */
  lemma NextThenPrevious(current: int, sceneCount: int)
    requires 0 <= current
    requires NextSceneToLoad(current, sceneCount).Some?
    ensures PreviousSceneToLoad(NextSceneToLoad(current, sceneCount).value) == Some(current)
  {
  }

  /** Going back and then forward returns to the scene one started from. */
  lemma PreviousThenNext(current: int, sceneCount: int)
    requires current < sceneCount
    requires PreviousSceneToLoad(current).Some?
    ensures NextSceneToLoad(PreviousSceneToLoad(current).value, sceneCount) == Some(current)
  {
  }

  /** The active index after n calls of LoadNextScene, each made once the
      load the previous call asked for has completed. */
  function AfterNextCalls(current: int, sceneCount: int, n: nat): int
    decreases n
  {
    if n == 0 then current
    else match NextSceneToLoad(current, sceneCount)
      case None => current
      case Some(next) => AfterNextCalls(next, sceneCount, n - 1)
  }

  /** The active index after n calls of LoadPreviousScene, under the same assumption. */
  function AfterPreviousCalls(current: int, n: nat): int
    decreases n
  {
    if n == 0 then current
    else match PreviousSceneToLoad(current)
      case None => current
      case Some(previous) => AfterPreviousCalls(previous, n - 1)
  }

  /** Repeated LoadNextScene, each call made after the previous load has
      completed, walks forward one scene at a time and stops at the last one. */
  lemma {:induction false} NextCallsStopAtLastScene(current: int, sceneCount: int, n: nat)
    requires -1 <= current < sceneCount
    ensures AfterNextCalls(current, sceneCount, n) == if current + n < sceneCount then current + n else sceneCount - 1
    decreases n
  {
    if n > 0 && current + 1 < sceneCount {
      NextCallsStopAtLastScene(current + 1, sceneCount, n - 1);
    }
  }

  /** Repeated LoadPreviousScene, each call made after the previous load has
      completed, walks back one scene at a time and stops at scene 0. */
  lemma {:induction false} PreviousCallsStopAtFirstScene(current: int, n: nat)
    requires 0 <= current
    ensures AfterPreviousCalls(current, n) == if current - n >= 0 then current - n else 0
    decreases n
  {
    if n > 0 && current >= 1 {
      PreviousCallsStopAtFirstScene(current - 1, n - 1);
    }
  }
}
