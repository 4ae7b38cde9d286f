/** The audio side of the recipe page: building the narration, receiving the
    list of audio segment URLs, and playing the segments one after another. */
module Playback {
  import opened Wrappers
  import Narration

  /** The page state the audio code reads and writes: the segment list and
      cursor kept on window, the player element and its ended handler, the
      loading indicator and the play button. */
  class AudioPlayback {
    /** window.audioUrls; None until a response has stored a list. */
    var audioUrls: Option<seq<string>>
    /** window.currentAudioIndex */
    var currentIndex: nat
    /** recipeAudio.src */
    var src: string
    /** recipeAudio is displayed. */
    var playerShown: bool
    /** audioLoadingIndicator is displayed. */
    var loadingShown: bool
    /** playAudioBtn.disabled */
    var buttonDisabled: bool
    /** recipeAudio.onended has been installed. */
    var endedHandlerSet: bool
    /** The sources handed to recipeAudio.play(), in order. */
    ghost var played: seq<string>

    /** The ended handler is only installed once a non-empty list is
        stored, and no later step removes the list or stores an empty one. */
    ghost predicate Valid()
      reads this
    {
      endedHandlerSet ==> audioUrls.Some? && |audioUrls.value| > 0
    }

    /** No segment is left at the cursor: the test at the top of
        playNextAudioSegment. */
    predicate Finished()
      reads this
    {
      audioUrls.None? || currentIndex >= |audioUrls.value|
    }

    /** The page before any audio was asked for. */
    constructor ()
      ensures Valid()
      ensures audioUrls == None && currentIndex == 0 && src == ""
      ensures !playerShown && !loadingShown && !buttonDisabled && !endedHandlerSet
      ensures played == []
    {
      audioUrls := None;
      currentIndex := 0;
      src := "";
      playerShown := false;
      loadingShown := false;
      buttonDisabled := false;
      endedHandlerSet := false;
      played := [];
    }

    /** The synchronous part of generateAudio: hide the player, show the
        loading indicator, disable the button and build the narration that
        is sent to the speech service. */
    method BeginGenerateAudio(ingredients: seq<string>, instructions: seq<string>) returns (text: string)
      requires Valid()
      modifies this
      ensures Valid()
      ensures text == Narration.NarrationText(ingredients, instructions)
      ensures !playerShown && loadingShown && buttonDisabled
      ensures audioUrls == old(audioUrls) && currentIndex == old(currentIndex) && src == old(src)
      ensures endedHandlerSet == old(endedHandlerSet) && played == old(played)
    {
      playerShown := false;
      loadingShown := true;
      buttonDisabled := true;
      text := Narration.BuildNarration(ingredients, instructions);
    }

    /** The catch block: hide the loading indicator and enable the button;
        the stored list, the cursor and the player are left as they were. */
    method RequestFailed()
      requires Valid()
      modifies this
      ensures Valid()
      ensures !loadingShown && !buttonDisabled
      ensures audioUrls == old(audioUrls) && currentIndex == old(currentIndex) && src == old(src)
      ensures playerShown == old(playerShown) && endedHandlerSet == old(endedHandlerSet)
      ensures played == old(played)
    {
      loadingShown := false;
      buttonDisabled := false;
    }

    /** The response handler: a missing or empty list is an error and ends in
        the catch block; otherwise the list is stored, the cursor reset to 0
        and the first segment started. */
    method ReceiveAudioUrls(urls: Option<seq<string>>) returns (ok: bool)
      requires Valid()
      modifies this
      ensures Valid()
      ensures ok <==> urls.Some? && |urls.value| > 0
      ensures !ok ==> && !loadingShown && !buttonDisabled
                      && audioUrls == old(audioUrls) && currentIndex == old(currentIndex)
                      && src == old(src) && playerShown == old(playerShown)
                      && endedHandlerSet == old(endedHandlerSet) && played == old(played)
      ensures ok ==> && audioUrls == urls && currentIndex == 0
                     && src == urls.value[0] && playerShown && endedHandlerSet
                     && !loadingShown && !buttonDisabled
                     && played == old(played) + [urls.value[0]]
    {
      if urls.None? || |urls.value| == 0 {
        RequestFailed();
        return false;
      }
      audioUrls := urls;
      currentIndex := 0;
      PlayNextAudioSegment();
      return true;
    }

    /** playNextAudioSegment: past the end of the list (or with no list) it
        hides the loading indicator, enables the button and stops; otherwise
        it plays the segment at the cursor, installs the ended handler, and
        for the first segment hides the indicator and enables the button. */
    method PlayNextAudioSegment()
      requires Valid()
      modifies this
      ensures Valid()
      ensures audioUrls == old(audioUrls) && currentIndex == old(currentIndex)
      ensures old(Finished()) ==>
                && !loadingShown && !buttonDisabled
                && src == old(src) && playerShown == old(playerShown)
                && endedHandlerSet == old(endedHandlerSet) && played == old(played)
      ensures !old(Finished()) ==>
                && src == audioUrls.value[currentIndex]
                && playerShown && endedHandlerSet
                && played == old(played) + [src]
                && (currentIndex == 0 ==> !loadingShown && !buttonDisabled)
                && (currentIndex != 0 ==>
                      loadingShown == old(loadingShown) && buttonDisabled == old(buttonDisabled))
    {
      if audioUrls.None? || currentIndex >= |audioUrls.value| {
        loadingShown := false;
        buttonDisabled := false;
        return;
      }
      src := audioUrls.value[currentIndex];
      playerShown := true;
      played := played + [src];
      endedHandlerSet := true;
      if currentIndex == 0 {
        loadingShown := false;
        buttonDisabled := false;
      }
    }

    /** recipeAudio.onended: advance the cursor by one and play on. */
    method OnEnded()
      requires Valid() && endedHandlerSet
      modifies this
      ensures Valid()
      ensures audioUrls == old(audioUrls) && currentIndex == old(currentIndex) + 1
      ensures Finished() ==>
                && !loadingShown && !buttonDisabled
                && src == old(src) && playerShown == old(playerShown)
                && endedHandlerSet && played == old(played)
      ensures !Finished() ==>
                && src == audioUrls.value[currentIndex] && playerShown && endedHandlerSet
                && played == old(played) + [src]
                && loadingShown == old(loadingShown) && buttonDisabled == old(buttonDisabled)
    {
      currentIndex := currentIndex + 1;
      PlayNextAudioSegment();
    }

    /** A response with segments, followed by each segment ending in turn:
        every URL is played once, in order, the button is usable from the
        first segment on, and the page ends in the stopped state. */
    method PlayThrough(urls: seq<string>)
      requires Valid()
      requires |urls| > 0
      modifies this
      ensures Valid()
      ensures played == old(played) + urls
      ensures audioUrls == Some(urls) && currentIndex == |urls| && Finished()
      ensures src == urls[|urls| - 1] && playerShown
      ensures !loadingShown && !buttonDisabled
    {
      ghost var before := played;
      var ok := ReceiveAudioUrls(Some(urls));
      while currentIndex < |urls|
        invariant Valid() && endedHandlerSet
        invariant audioUrls == Some(urls) && currentIndex <= |urls|
        invariant currentIndex < |urls| ==>
                    played == before + urls[..currentIndex + 1] && src == urls[currentIndex]
        invariant currentIndex == |urls| ==>
                    played == before + urls && src == urls[|urls| - 1]
        invariant playerShown && !loadingShown && !buttonDisabled
        decreases |urls| - currentIndex
      {
        ghost var i := currentIndex;
        OnEnded();
        if currentIndex < |urls| {
          assert urls[..currentIndex + 1] == urls[..i + 1] + [urls[currentIndex]];
        } else {
          assert urls[..i + 1] == urls;
        }
      }
    }
  }
}
