/**
 * The sprite animation engine: the `Animation` record, the `Animator` and `Sprite`
 * components, and the operations of the animation system that drive them.
 *
 * Textures are opaque values of a type parameter `T`. The animator's frame timer
 * (an `sf::Clock`) is modelled by the time of its last restart, `timerStart`, and
 * every operation that reads or restarts it takes the current time `now` in milliseconds.
 */
module Sprite {
  import opened Common

  /** A sequence of frames, a delay in milliseconds after each, and the number of frames played. */
  datatype Animation<T> = Animation(textures: seq<T>, delays: seq<int>, length: nat)

  /** An animation whose length, frame count and delay count agree. */
  predicate WellFormed<T>(a: Animation<T>) {
    a.length == |a.textures| == |a.delays|
  }

  /** `CreateAnimation`: bundles frames with one delay per frame, and throws otherwise. */
  function CreateAnimation<T>(frames: seq<T>, delays: seq<int>): (r: Result<Animation<T>>)
    ensures r.Ok? <==> |frames| == |delays|
    ensures r.Err? ==> r.error == NotEnoughDelays
    ensures r.Ok? ==> r.value.textures == frames && r.value.delays == delays && WellFormed(r.value)
  {
    if |frames| != |delays| then Err(NotEnoughDelays)
    else Ok(Animation(frames, delays, |frames|))
  }

  /** The playback fields of an `Animator`, with the time its frame timer was last restarted. */
  datatype Playback = Playback(current: string, frame: int, repeat: bool, playing: bool, timerStart: int)

  /**
   * What `AdvanceFrame` does to the playback fields when the current animation is
   * `length` frames long: step to the next frame, or wrap to frame 0 at the end and,
   * unless repeating, stop and forget the current animation. The timer restarts at `now`.
   */
  function Advance(p: Playback, length: nat, now: int): Playback
    requires 0 <= p.frame
  {
    if p.frame + 1 >= length then
      if p.repeat then p.(frame := 0, timerStart := now)
      else p.(frame := 0, playing := false, current := "", timerStart := now)
    else p.(frame := p.frame + 1, timerStart := now)
  }

  /** A frame index stays within the animation across `AdvanceFrame`. */
  lemma AdvanceFrameInRange(p: Playback, length: nat, now: int)
    requires 0 <= p.frame
    ensures length > 0 ==> 0 <= Advance(p, length, now).frame < length
    ensures Advance(p, length, now).frame == p.frame + 1 || Advance(p, length, now).frame == 0
  {
  }

  /** Wrapping a non-repeating animation stops it; a repeating one keeps playing the same animation. */
  lemma AdvanceAtEnd(p: Playback, length: nat, now: int)
    requires 0 <= p.frame && p.frame + 1 >= length
    ensures var q := Advance(p, length, now);
      && q.frame == 0
      && (!p.repeat ==> !q.playing && q.current == "")
      && (p.repeat ==> q.playing == p.playing && q.current == p.current)
  {
  }

  /** `AdvanceFrame` applied `k` times at the same instant. */
  function AdvanceTimes(p: Playback, length: nat, now: int, k: nat): (q: Playback)
    requires 0 <= p.frame
    ensures 0 <= q.frame
    decreases k
  {
    if k == 0 then p else AdvanceTimes(Advance(p, length, now), length, now, k - 1)
  }

  /** A repeating animation cycles: after `k` advances the frame is `(frame + k) mod length`. */
  lemma {:induction false} RepeatingCycles(p: Playback, length: nat, now: int, k: nat)
    requires p.repeat && 0 <= p.frame < length
    ensures var q := AdvanceTimes(p, length, now, k);
      && q.frame == (p.frame + k) % length
      && q.playing == p.playing && q.current == p.current && q.repeat
    decreases k
  {
    if k > 0 {
      var p' := Advance(p, length, now);
      if p.frame + 1 < length {
        DivModUnique(p.frame + 1, 0, p.frame + 1, length);
      } else {
        DivModUnique(p.frame + 1, 1, 0, length);
      }
      assert p'.frame == (p.frame + 1) % length;
      RepeatingCycles(p', length, now, k - 1);
      assert (p'.frame + (k - 1)) % length == (p.frame + k) % length by {
        ModShift(p.frame + 1, length, k - 1);
      }
    }
  }

  /**
   * A non-repeating animation started at frame `f` plays `length - f - 1` more frames
   * and then stops on the next advance, leaving no current animation.
   */
  lemma {:induction false} OneShotStops(p: Playback, length: nat, now: int, k: nat)
    requires !p.repeat && p.playing && 0 <= p.frame < length && p.frame + k <= length
    ensures var q := AdvanceTimes(p, length, now, k);
      && (p.frame + k < length ==> q.playing && q.current == p.current && q.frame == p.frame + k)
      && (p.frame + k == length ==> !q.playing && q.current == "" && q.frame == 0)
    decreases k
  {
    if k > 0 {
      var p' := Advance(p, length, now);
      if p.frame + 1 < length {
        OneShotStops(p', length, now, k - 1);
      } else {
        assert k == 1;
      }
    }
  }

  /**
   * `Update` reads the delay of the current frame of every playing animator, and
   * `AdvanceFrame` its texture once that delay has elapsed: both must be in range.
   */
  predicate Ready<T>(p: Playback, animations: map<string, Animation<T>>, now: int) {
    p.playing ==>
      && p.current in animations
      && 0 <= p.frame < |animations[p.current].delays|
      && (now - p.timerStart >= animations[p.current].delays[p.frame] ==>
            p.frame < |animations[p.current].textures|)
  }

  /** A playing animator whose current frame has been shown for at least its delay. */
  predicate Due<T>(p: Playback, animations: map<string, Animation<T>>, now: int)
    requires Ready(p, animations, now)
  {
    p.playing && now - p.timerStart >= animations[p.current].delays[p.frame]
  }

  /** What one `Update` does to one animator's playback fields. */
  function Tick<T>(p: Playback, animations: map<string, Animation<T>>, now: int): Playback
    requires Ready(p, animations, now)
  {
    if Due(p, animations, now) then Advance(p, animations[p.current].length, now) else p
  }

  /**
   * One `Update` advances an animator by at most one frame, and only when it is
   * playing and its current frame's delay has elapsed.
   */
  lemma TickAtMostOneFrame<T>(p: Playback, animations: map<string, Animation<T>>, now: int)
    requires Ready(p, animations, now)
    ensures var q := Tick(p, animations, now);
      && (q.frame == p.frame || q.frame == p.frame + 1 || q.frame == 0)
      && (q != p ==> p.playing && now - p.timerStart >= animations[p.current].delays[p.frame])
      && (!p.playing ==> q == p)
  {
  }

  /** The sprite component: the texture currently shown and a draw-order override. */
  class Sprite<T> {
    var texture: T
    var zOverride: int

    constructor (texture: T)
      ensures this.texture == texture && zOverride == 0
    {
      this.texture := texture;
      zOverride := 0;
    }
  }

  /** The animator component: named animations and the state of the one playing. */
  class Animator<T> {
    var animations: map<string, Animation<T>>
    var currentAnimation: string
    var animationFrame: int
    var repeatAnimation: bool
    var playingAnimation: bool
    var timerStart: int

    /** The playback fields as a value. */
    function State(): Playback
      reads this
    {
      Playback(currentAnimation, animationFrame, repeatAnimation, playingAnimation, timerStart)
    }

    /** A fresh animator: no animations, nothing playing, its timer started at `now`. */
    constructor (now: int)
      ensures animations == map[]
      ensures State() == Playback("", 0, false, false, now)
    {
      animations := map[];
      currentAnimation := "";
      animationFrame := 0;
      repeatAnimation := false;
      playingAnimation := false;
      timerStart := now;
    }

    /**
     * `AnimationSystem::AdvanceFrame`: shows the current frame's texture on the sprite,
     * restarts the timer and steps the playback fields as `Advance` says.
     */
    method AdvanceFrame(sprite: Sprite<T>, now: int)
      requires currentAnimation in animations
      requires 0 <= animationFrame < |animations[currentAnimation].textures|
      modifies this`currentAnimation, this`animationFrame, this`playingAnimation, this`timerStart
      modifies sprite`texture
      ensures sprite.texture == old(animations[currentAnimation].textures[animationFrame])
      ensures State() == Advance(old(State()), old(animations[currentAnimation].length), now)
    {
      var animation := animations[currentAnimation];
      sprite.texture := animation.textures[animationFrame];
      timerStart := now;
      animationFrame := animationFrame + 1;
      if animationFrame >= animation.length {
        animationFrame := 0;
        if !repeatAnimation {
          playingAnimation := false;
          currentAnimation := "";
        }
      }
    }

    /**
     * `AnimationSystem::AddAnimations`: throws when there are fewer names than animations;
     * otherwise inserts `names[i] -> animations[i]` in order, never replacing an entry that
     * already exists, so a name already present (or repeated) keeps its first animation.
     */
    method AddAnimations(newAnimations: seq<Animation<T>>, names: seq<string>) returns (r: Outcome)
      modifies this`animations
      ensures r.Fail? <==> |newAnimations| > |names|
      ensures r.Fail? ==> r.error == NotEnoughNames && animations == old(animations)
      ensures r.Pass? ==>
        animations.Keys == old(animations).Keys + (set i | 0 <= i < |newAnimations| :: names[i])
      ensures r.Pass? ==> forall k :: k in old(animations) ==> animations[k] == old(animations)[k]
      ensures r.Pass? ==> forall i ::
                (0 <= i < |newAnimations| && names[i] !in old(animations)
                 && forall j :: 0 <= j < i ==> names[j] != names[i]) ==>
                animations[names[i]] == newAnimations[i]
    {
      if |newAnimations| > |names| {
        return Fail(NotEnoughNames);
      }
      var i := 0;
      while i < |newAnimations|
        invariant 0 <= i <= |newAnimations|
        invariant animations.Keys == old(animations).Keys + (set j | 0 <= j < i :: names[j])
        invariant forall k :: k in old(animations) ==> animations[k] == old(animations)[k]
        invariant forall m ::
                    (0 <= m < i && names[m] !in old(animations)
                     && forall j :: 0 <= j < m ==> names[j] != names[m]) ==>
                    animations[names[m]] == newAnimations[m]
      {
        if names[i] !in animations {
          animations := animations[names[i] := newAnimations[i]];
        }
        i := i + 1;
      }
      return Pass;
    }

    /** `AnimationSystem::AddAnimation`: inserts `name -> animation` unless `name` is already present. */
    method AddAnimation(animation: Animation<T>, name: string)
      modifies this`animations
      ensures name in old(animations) ==> animations == old(animations)
      ensures name !in old(animations) ==> animations == old(animations)[name := animation]
    {
      if name !in animations {
        animations := animations[name := animation];
      }
    }

    /** `AnimationSystem::PlayAnimation`: starts `name` from frame 0 and restarts the timer. */
    method PlayAnimation(name: string, repeat: bool, now: int)
      modifies this`currentAnimation, this`animationFrame, this`repeatAnimation
      modifies this`playingAnimation, this`timerStart
      ensures State() == Playback(name, 0, repeat, true, now)
    {
      currentAnimation := name;
      animationFrame := 0;
      repeatAnimation := repeat;
      playingAnimation := true;
      timerStart := now;
    }

    /**
     * `AnimationSystem::StopAnimation`: with a non-empty `name` that is not the current
     * animation, does nothing; otherwise clears the current animation and stops playback.
     */
    method StopAnimation(name: string)
      modifies this`currentAnimation, this`animationFrame, this`playingAnimation
      ensures name != "" && old(currentAnimation) != name ==> State() == old(State())
      ensures name == "" || old(currentAnimation) == name ==>
        State() == old(State()).(current := "", frame := 0, playing := false)
    {
      if name != "" && currentAnimation != name {
        return;
      }
      currentAnimation := "";
      animationFrame := 0;
      playingAnimation := false;
    }
  }

  /**
   * `AnimationSystem::Update`: for each entity in turn (animator `animators[i]` with sprite
   * `sprites[i]`), advances one frame if it is playing and its frame's delay has elapsed.
   */
  method Update<T>(animators: seq<Animator<T>>, sprites: seq<Sprite<T>>, now: int)
    requires |animators| == |sprites|
    requires forall i, j :: 0 <= i < j < |animators| ==> animators[i] != animators[j]
    requires forall i, j :: 0 <= i < j < |sprites| ==> sprites[i] != sprites[j]
    requires forall i :: 0 <= i < |animators| ==> Ready(animators[i].State(), animators[i].animations, now)
    modifies animators, sprites
    ensures forall i :: 0 <= i < |animators| ==>
      && animators[i].animations == old(animators[i].animations)
      && animators[i].State() == Tick(old(animators[i].State()), old(animators[i].animations), now)
    ensures forall i :: 0 <= i < |sprites| ==>
      sprites[i].texture ==
        if old(Due(animators[i].State(), animators[i].animations, now))
        then old(animators[i].animations[animators[i].currentAnimation].textures[animators[i].animationFrame])
        else old(sprites[i].texture)
    ensures forall i :: 0 <= i < |sprites| ==> sprites[i].zOverride == old(sprites[i].zOverride)
  {
    var i := 0;
    while i < |animators|
      invariant 0 <= i <= |animators|
      invariant forall k :: 0 <= k < i ==>
        && animators[k].animations == old(animators[k].animations)
        && animators[k].State() == Tick(old(animators[k].State()), old(animators[k].animations), now)
        && sprites[k].texture ==
             if old(Due(animators[k].State(), animators[k].animations, now))
             then old(animators[k].animations[animators[k].currentAnimation].textures[animators[k].animationFrame])
             else old(sprites[k].texture)
      invariant forall k :: i <= k < |animators| ==>
        && animators[k].animations == old(animators[k].animations)
        && animators[k].State() == old(animators[k].State())
        && sprites[k].texture == old(sprites[k].texture)
      invariant forall k :: 0 <= k < |sprites| ==> sprites[k].zOverride == old(sprites[k].zOverride)
    {
      var animator := animators[i];
      if animator.playingAnimation {
        if now - animator.timerStart >= animator.animations[animator.currentAnimation].delays[animator.animationFrame] {
          animator.AdvanceFrame(sprites[i], now);
        }
      }
      i := i + 1;
    }
  }
}
