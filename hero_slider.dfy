/**
 * The hero carousel: which media it preloads, when it reveals the slides,
 * how it moves between them, and how each slide is classified when drawn.
 */
module HeroSlider {
  import opened Wrappers
  import JsLib

  // ---------------------------------------------------------------------------
  // Content shapes
  // ---------------------------------------------------------------------------

  /** A media-library entry (an uploaded image or video). */
  datatype MediaItem = MediaItem(
    id: int,
    documentId: string,
    name: string,
    alternativeText: Option<string>,
    caption: Option<string>,
    width: Option<int>,
    height: Option<int>,
    hash: string,
    ext: string,
    mime: string,
    url: string,
    previewUrl: Option<string>,
    provider: string,
    createdAt: string,
    updatedAt: string,
    publishedAt: string)

  /** Which of the two background fields a slide uses. */
  datatype BackgroundType = Image | Video

  /** One carousel entry. */
  datatype Slide = Slide(
    id: int,
    title: string,
    description: string,
    backgroundType: BackgroundType,
    buttonText: string,
    buttonLink: string,
    backgroundImage: Option<MediaItem>,
    backgroundVideo: Option<MediaItem>,
    foregroundImage: Option<MediaItem>)

  // ---------------------------------------------------------------------------
  // Preload tasks
  // ---------------------------------------------------------------------------

  /**
   * A preload promise: the load of slide `index`'s background (an image or a
   * video, as the slide says) or of its foreground image.
   */
  datatype Task = Background(index: int) | Foreground(index: int)

  /** The slide's background type names a background that is present. */
  predicate HasBackgroundTask(slide: Slide) {
    || (slide.backgroundType == Image && slide.backgroundImage.Some?)
    || (slide.backgroundType == Video && slide.backgroundVideo.Some?)
  }

  /** The promises pushed for slide `index`, in the order they are pushed. */
  function SlideTasks(slide: Slide, index: int): seq<Task> {
    (if slide.backgroundType == Image && slide.backgroundImage.Some? then [Background(index)] else [])
    + (if slide.backgroundType == Video && slide.backgroundVideo.Some? then [Background(index)] else [])
    + (if slide.foregroundImage.Some? then [Foreground(index)] else [])
  }

  /** The `promises` array after `slides.forEach` has run. */
  function PlannedTasks(slides: seq<Slide>): seq<Task>
    decreases |slides|
  {
    if slides == [] then []
    else PlannedTasks(slides[..|slides| - 1]) + SlideTasks(slides[|slides| - 1], |slides| - 1)
  }

  /** `t` is a load the slides call for. */
  predicate Wanted(slides: seq<Slide>, t: Task) {
    && 0 <= t.index < |slides|
    && match t
       case Background(i) => HasBackgroundTask(slides[i])
       case Foreground(i) => slides[i].foregroundImage.Some?
  }

  /** No two positions of `tasks` hold the same load. */
  predicate Distinct(tasks: seq<Task>) {
    forall p, q :: 0 <= p < q < |tasks| ==> tasks[p] != tasks[q]
  }

  /**
   * A background load exists exactly for the slides whose background type
   * names a present background, a foreground load exactly for the slides
   * with a foreground image, and none twice.
   */
  lemma {:induction false} PlannedTasksMembers(slides: seq<Slide>)
    ensures forall t :: t in PlannedTasks(slides) <==> Wanted(slides, t)
    ensures Distinct(PlannedTasks(slides))
    decreases |slides|
  {
    if slides != [] {
      var n := |slides| - 1;
      var init := slides[..n];
      var pre := PlannedTasks(init);
      var last := SlideTasks(slides[n], n);
      PlannedTasksMembers(init);
      assert forall t :: t in pre ==> t.index < n;
      assert forall t :: t in last ==> t.index == n;
      assert forall t :: t in last <==> t.index == n && Wanted(slides, t);
      assert forall t :: t in pre <==> t.index < n && Wanted(slides, t) by {
        forall t ensures t in pre <==> t.index < n && Wanted(slides, t) {
          if 0 <= t.index < n {
            assert init[t.index] == slides[t.index];
          }
        }
      }
      assert Distinct(last);
      var all := pre + last;
      forall p, q | 0 <= p < q < |all| ensures all[p] != all[q] {
        if q < |pre| {
        } else if p < |pre| {
          assert all[p] in pre && all[q] in last;
        } else {
          assert all[p] == last[p - |pre|] && all[q] == last[q - |pre|];
        }
      }
    }
  }

  /** The preload effect's `forEach`: push the promises each slide needs. */
  method PreloadTasks(slides: seq<Slide>) returns (tasks: seq<Task>)
    ensures tasks == PlannedTasks(slides)
    ensures forall t :: t in tasks <==> Wanted(slides, t)
    ensures Distinct(tasks)
  {
    tasks := [];
    var index := 0;
    while index < |slides|
      invariant 0 <= index <= |slides|
      invariant tasks == PlannedTasks(slides[..index])
    {
      var slide := slides[index];
      ghost var before := tasks;
      if slide.backgroundType == Image && slide.backgroundImage.Some? {
        tasks := tasks + [Background(index)];
      }
      if slide.backgroundType == Video && slide.backgroundVideo.Some? {
        tasks := tasks + [Background(index)];
      }
      if slide.foregroundImage.Some? {
        tasks := tasks + [Foreground(index)];
      }
      assert tasks == before + SlideTasks(slide, index);
      assert slides[..index + 1][..index] == slides[..index];
      index := index + 1;
    }
    assert slides[..|slides|] == slides;
    PlannedTasksMembers(slides);
  }

  /** A set of indices below `n` has at most `n` members. */
  lemma {:induction false} BoundedIndexSet(s: set<int>, n: nat)
    requires forall i :: i in s ==> 0 <= i < n
    ensures |s| <= n
    decreases n
  {
    if n == 0 {
      assert forall i :: i !in s;
      assert s == {};
    } else {
      BoundedIndexSet(s - {n - 1}, n - 1);
    }
  }

  // ---------------------------------------------------------------------------
  // The slider's state
  // ---------------------------------------------------------------------------

  /**
   * One mounted slider. `tasks` is the `promises` array of the preload
   * effect and `settled` the ones whose promise has resolved; each event that
   * the browser or a timer delivers is a method.
   */
  class Slider {
    const slides: seq<Slide>
    const strapiUrl: string
    const tasks: seq<Task>
    var currentSlide: int
    var isTransitioning: bool
    var loadedMedia: set<int>
    var allMediaLoaded: bool
    var settled: set<Task>
    /** Transition timeouts that `goToSlide` armed and that have not fired. */
    var pendingTimeouts: nat

    ghost predicate Valid()
      reads this
    {
      && |slides| > 0
      && 0 <= currentSlide < |slides|
      && tasks == PlannedTasks(slides)
      && (forall t :: t in settled ==> t in tasks)
      && (forall i :: i in loadedMedia ==> Background(i) in settled)
      && (allMediaLoaded ==> AllSettled())
      && (isTransitioning ==> pendingTimeouts > 0)
    }

    /** Every promise `Promise.all` waits on has resolved. */
    predicate AllSettled()
      reads this
    {
      forall t :: t in tasks ==> t in settled
    }

    /** The slider is mounted with the initial state; the preload effect builds its promises. */
    constructor (slides: seq<Slide>, strapiUrl: string)
      requires |slides| > 0
      ensures Valid()
      ensures this.slides == slides && this.strapiUrl == strapiUrl
      ensures tasks == PlannedTasks(slides)
      ensures currentSlide == 0 && !isTransitioning
      ensures loadedMedia == {} && !allMediaLoaded
      ensures settled == {} && pendingTimeouts == 0
    {
      this.slides := slides;
      this.strapiUrl := strapiUrl;
      var planned := PreloadTasks(slides);
      tasks := planned;
      currentSlide := 0;
      isTransitioning := false;
      loadedMedia := {};
      allMediaLoaded := false;
      settled := {};
      pendingTimeouts := 0;
    }

    /** Slide `i`'s background image fired `onload`, or its video `onloadeddata`. */
    method BackgroundLoaded(i: int)
      requires Valid() && Background(i) in tasks
      modifies this`loadedMedia, this`settled
      ensures Valid()
      ensures loadedMedia == old(loadedMedia) + {i}
      ensures settled == old(settled) + {Background(i)}
    {
      loadedMedia := loadedMedia + {i};
      settled := settled + {Background(i)};
    }

    /** Slide `i`'s background fired `onerror`: the promise resolves, nothing is recorded. */
    method BackgroundFailed(i: int)
      requires Valid() && Background(i) in tasks
      modifies this`settled
      ensures Valid()
      ensures settled == old(settled) + {Background(i)}
    {
      settled := settled + {Background(i)};
    }

    /** Slide `i`'s foreground image fired `onload` or `onerror`. */
    method ForegroundSettled(i: int)
      requires Valid() && Foreground(i) in tasks
      modifies this`settled
      ensures Valid()
      ensures settled == old(settled) + {Foreground(i)}
    {
      settled := settled + {Foreground(i)};
    }

    /** `await Promise.all(promises)` returned: the slides are revealed. */
    method MediaSettled()
      requires Valid() && AllSettled()
      modifies this`allMediaLoaded
      ensures Valid() && allMediaLoaded
    {
      allMediaLoaded := true;
    }

    /** One firing of the auto-advance interval, which exists only once all media is loaded. */
    method Tick()
      requires Valid() && allMediaLoaded
      modifies this`currentSlide
      ensures Valid()
      ensures currentSlide == JsLib.Remainder(old(currentSlide) + 1, |slides|)
      ensures currentSlide == if old(currentSlide) + 1 == |slides| then 0 else old(currentSlide) + 1
    {
      NeighbourIndices(currentSlide, |slides|);
      currentSlide := JsLib.Remainder(currentSlide + 1, |slides|);
    }

    /**
     * `goToSlide(index)`: show `index` now and arm the 600 ms transition
     * timeout. It checks nothing itself; its only callers are the slide dots,
     * drawn after the reveal, one per slide index.
     */
    method GoToSlide(index: int)
      requires Valid() && allMediaLoaded && 0 <= index < |slides|
      modifies this`isTransitioning, this`currentSlide, this`pendingTimeouts
      ensures Valid()
      ensures isTransitioning && currentSlide == index
      ensures pendingTimeouts == old(pendingTimeouts) + 1
    {
      isTransitioning := true;
      currentSlide := index;
      pendingTimeouts := pendingTimeouts + 1;
    }

    /** A transition timeout armed by `goToSlide` fired. */
    method TransitionTimeout()
      requires Valid() && pendingTimeouts > 0
      modifies this`isTransitioning, this`pendingTimeouts
      ensures Valid()
      ensures !isTransitioning && pendingTimeouts == old(pendingTimeouts) - 1
    {
      isTransitioning := false;
      pendingTimeouts := pendingTimeouts - 1;
    }

    /** `slides[currentSlide]`: the slide whose text and foreground are drawn. */
    function CurrentSlideData(): (s: Slide)
      reads this
      requires Valid()
      ensures s in slides
    {
      slides[currentSlide]
    }

    /**
     * Only slides whose background load succeeded are counted as loaded, so
     * the count behind the loading percentage never exceeds the slide count.
     */
    lemma LoadedMediaBound()
      requires Valid()
      ensures forall i :: i in loadedMedia ==> 0 <= i < |slides| && HasBackgroundTask(slides[i])
      ensures |loadedMedia| <= |slides|
    {
      PlannedTasksMembers(slides);
      assert forall i :: i in loadedMedia ==> Wanted(slides, Background(i));
      BoundedIndexSet(loadedMedia, |slides|);
    }

    /**
     * The reveal waits for exactly the wanted loads: every background load a
     * slide's type calls for and every foreground image, whatever their
     * outcome; a slide without a usable background adds nothing to wait for.
     */
    lemma AllSettledMeans()
      requires Valid()
      ensures AllSettled() <==> forall t :: Wanted(slides, t) ==> t in settled
    {
      PlannedTasksMembers(slides);
    }
  }

  // ---------------------------------------------------------------------------
  // Rendering decisions
  // ---------------------------------------------------------------------------

  /** How a slide's background is drawn: shown, fading neighbour, or hidden. */
  datatype Tier = Active | Adjacent | Distant

  /** The `isActive` / `isNext || isPrev` / other choice for slide `index`. */
  function TierOf(index: int, current: int, count: int): Tier
    requires count > 0
  {
    var isActive := index == current;
    var isNext := index == JsLib.Remainder(current + 1, count);
    var isPrev := index == JsLib.Remainder(current - 1 + count, count);
    if isActive then Active else if isNext || isPrev then Adjacent else Distant
  }

  /** Steps between positions `i` and `j` on a ring of `count` slides, the shorter way. */
  function RingDistance(i: int, j: int, count: int): int
    requires count > 0
  {
    var forward := (j - i) % count;
    var backward := (i - j) % count;
    if forward <= backward then forward else backward
  }

  lemma ModSmall(a: int, n: int)
    requires -n < a < n
    ensures a % n == if a >= 0 then a else a + n
  {
  }

  lemma ModOnce(a: int, n: int)
    requires 0 < n <= a < 2 * n
    ensures a % n == a - n
  {
    ModSmall(a - n, n);
    assert a % n == (a - n) % n;
  }

  /**
   * On the ring of slides, a slide is active at distance 0 from the current
   * one, adjacent at distance 1 and distant otherwise.
   */
  lemma TierByDistance(index: int, current: int, count: int)
    requires 0 <= index < count && 0 <= current < count
    ensures TierOf(index, current, count) == Active <==> RingDistance(index, current, count) == 0
    ensures TierOf(index, current, count) == Adjacent <==> RingDistance(index, current, count) == 1
    ensures TierOf(index, current, count) == Distant <==> RingDistance(index, current, count) >= 2
  {
    NeighbourIndices(current, count);
    var forward := if current >= index then current - index else current - index + count;
    var backward := if index >= current then index - current else index - current + count;
    ModSmall(current - index, count);
    ModSmall(index - current, count);
    assert RingDistance(index, current, count) == if forward <= backward then forward else backward;
  }

  /** The slides after and before `current`, as `TierOf` computes them. */
  lemma NeighbourIndices(current: int, count: int)
    requires 0 <= current < count
    ensures JsLib.Remainder(current + 1, count) == if current + 1 == count then 0 else current + 1
    ensures JsLib.Remainder(current - 1 + count, count) == if current == 0 then count - 1 else current - 1
  {
    if current + 1 == count {
      ModOnce(count, count);
    } else {
      ModSmall(current + 1, count);
    }
    if current == 0 {
      ModSmall(count - 1, count);
    } else {
      ModOnce(current - 1 + count, count);
    }
  }

  /** `TierOf` in terms of the two neighbours of an in-range current slide. */
  lemma TierOfNeighbours(index: int, current: int, count: int)
    requires 0 <= current < count
    ensures var next := if current + 1 == count then 0 else current + 1;
      var prev := if current == 0 then count - 1 else current - 1;
      TierOf(index, current, count) ==
        if index == current then Active
        else if index == next || index == prev then Adjacent
        else Distant
  {
    NeighbourIndices(current, count);
  }

  /**
   * Exactly one slide is active; one neighbour is adjacent with two slides,
   * two with three or more, none with a single slide.
   */
  lemma TierCounts(current: int, count: int)
    requires 0 <= current < count
    ensures |set i | 0 <= i < count && TierOf(i, current, count) == Active| == 1
    ensures |set i | 0 <= i < count && TierOf(i, current, count) == Adjacent|
      == if count == 1 then 0 else if count == 2 then 1 else 2
  {
    var next := if current + 1 == count then 0 else current + 1;
    var prev := if current == 0 then count - 1 else current - 1;
    var active := set i | 0 <= i < count && TierOf(i, current, count) == Active;
    var adjacent := set i | 0 <= i < count && TierOf(i, current, count) == Adjacent;
    var around := if count == 1 then {} else if count == 2 then {next} else {next, prev};
    forall i ensures (i in active <==> i == current) && (i in adjacent <==> i in around) {
      TierOfNeighbours(i, current, count);
    }
    assert active == {current};
    assert adjacent == around;
  }

  /** `strapiUrl.includes("localhost")`: images are then served unoptimized. */
  function Unoptimized(strapiUrl: string): (r: bool)
    ensures r <==> exists i :: JsLib.OccursAt(strapiUrl, "localhost", i)
  {
    JsLib.Includes(strapiUrl, "localhost")
  }
}
