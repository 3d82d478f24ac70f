/**
 One native view and its fields (apps/desktop/src/browser-surface.ts).

 `Surface` is what the fields hold between two turns of the event loop. A view is known by the
 identity of its WebContents, a number never used twice. Native calls that may fail are outcomes
 passed in: `added` says whether addChildView succeeded, `built` whether the native view could be made.
 */
module BrowserSurfaces {
  import opened Wrappers

  // Ids are compared and never inspected, so numbers stand for them.
  type SurfaceId = nat
  type Contents = nat

  datatype Profile = Isolated | Authenticated(name: nat)

  datatype Surface = Surface(
    closed: bool,
    view: Option<Contents>,
    attached: bool,
    visible: bool,
    generation: nat,
    crashed: bool  // the renderer of the current view has been reported gone
  )

  /** A view is attached only while its surface is open, visible and holds a view. */
  predicate Ok(s: Surface) {
    && (s.attached ==> !s.closed && s.visible && s.view.Some?)
    && (s.closed ==> !s.visible && s.view.None?)
    && (s.crashed ==> s.view.Some?)
  }

  function Attach(s: Surface, added: bool): (r: Surface)
    ensures Ok(s) ==> Ok(r)
  {
    if s.closed || s.attached || s.view.None? || !s.visible || !added then s else s.(attached := true)
  }

  function Detach(s: Surface): (r: Surface)
    ensures Ok(s) ==> Ok(r) && !r.attached
  {
    if s.view.None? || !s.attached then s else s.(attached := false)
  }

  function CloseView(s: Surface): (r: Surface)
    ensures Ok(s) ==> Ok(r) && !r.attached && r.view.None?
  {
    if s.view.None? then s else Detach(s).(view := None, crashed := false)
  }

  function CreateView(s: Surface, contents: Contents, added: bool): (r: Surface)
    ensures Ok(s) ==> Ok(r)
    ensures s.generation <= r.generation
  {
    if s.closed then s
    else Attach(s.(view := Some(contents), generation := s.generation + 1, crashed := false), added)
  }

  function SetVisible(s: Surface, visible: bool, added: bool): (r: Surface)
    ensures Ok(s) ==> Ok(r)
    ensures !s.closed ==> r.visible == visible
  {
    if visible then Attach(if s.closed then s else s.(visible := true), added)
    else var d := Detach(s); if d.closed then d else d.(visible := false)
  }

  /** The guard of a replacement: the surface still shows exactly the view that is to be replaced. */
  predicate Shows(s: Surface, contents: Contents, generation: nat) {
    !s.closed && s.view == Some(contents) && s.generation == generation
  }

  /** Replace the current view; when the native view cannot be built the surface is left without one. */
  function Replace(s: Surface, contents: Contents, built: bool, added: bool): (r: Surface)
    ensures Ok(s) ==> Ok(r)
    ensures s.generation <= r.generation
    ensures built && !s.closed ==> r.generation == s.generation + 1 && r.view == Some(contents)
    ensures r.visible == s.visible && r.closed == s.closed
  {
    var bare := CloseView(s);
    if built then CreateView(bare, contents, added) else bare
  }

  function Close(s: Surface): (r: Surface)
    ensures Ok(s) ==> Ok(r)
    ensures r.closed && (Ok(s) ==> !r.visible && r.view.None?)
  {
    if s.closed then s else CloseView(s.(closed := true)).(visible := false)
  }

  /** A new surface is created hidden and with its first view. */
  function Fresh(contents: Contents): (r: Surface)
    ensures Ok(r)
  {
    CreateView(Surface(false, None, false, false, 0, false), contents, false)
  }

  class BrowserSurface {
    const surfaceId: SurfaceId
    const profile: Profile
    var view: Option<Contents>
    var attached: bool
    var visible: bool
    var closed: bool
    var replacing: bool
    var viewGeneration: nat
    var crashed: bool

    ghost function Model(): (s: Surface)
      reads this
    {
      Surface(closed, view, attached, visible, viewGeneration, crashed)
    }

    ghost predicate Valid()
      reads this
    {
      !replacing && Ok(Model())
    }

    constructor (id: SurfaceId, owned: Profile, contents: Contents)
      ensures Valid() && surfaceId == id && profile == owned
      ensures Model() == Fresh(contents)
    {
      surfaceId, profile := id, owned;
      view, attached, visible, closed, replacing, viewGeneration, crashed := None, false, false, false, false, 0, false;
      new;
      OpenView(contents, false);
    }

    method AttachView(added: bool)
      requires Ok(Model())
      modifies this`attached
      ensures Model() == Attach(old(Model()), added)
    {
      if closed || attached || view.None? || !visible { return; }
      if added { attached := true; }
    }

    method DetachView()
      modifies this`attached
      ensures Model() == Detach(old(Model()))
    {
      if view.None? || !attached { return; }
      attached := false;
    }

    method DropView()
      modifies this`attached, this`view, this`crashed
      ensures Model() == CloseView(old(Model()))
    {
      if view.None? { return; }
      DetachView();
      view := None;
      crashed := false;
    }

    method OpenView(contents: Contents, added: bool)
      requires Ok(Model())
      modifies this`attached, this`view, this`crashed, this`viewGeneration
      ensures Model() == CreateView(old(Model()), contents, added)
    {
      if closed { return; }
      view := Some(contents);
      viewGeneration := viewGeneration + 1;
      crashed := false;
      if visible { AttachView(added); }
    }

    method Show(show: bool, added: bool)
      requires Valid()
      modifies this
      ensures Valid() && Model() == SetVisible(old(Model()), show, added)
    {
      if show {
        if !closed { visible := true; }
        AttachView(added);
      } else {
        DetachView();
        if !closed { visible := false; }
      }
    }

    /** The current renderer is gone; the runtime's crash callback is called by the runtime itself. */
    method RendererGone(contents: Contents, generation: nat) returns (reported: bool)
      requires Valid()
      modifies this`crashed
      ensures Valid()
      ensures reported <==> Shows(old(Model()), contents, generation)
      ensures Model() == old(Model()).(crashed := reported || old(crashed))
    {
      reported := !closed && view == Some(contents) && viewGeneration == generation && !replacing;
      if reported { crashed := true; }
    }

    method ReplaceAfterCrash(contents: Contents, generation: nat, next: Contents, built: bool, added: bool)
      returns (replaced: bool)
      requires Valid()
      modifies this
      ensures Valid()
      ensures replaced <==> Shows(old(Model()), contents, generation) && built
      ensures Model() ==
              if Shows(old(Model()), contents, generation) then Replace(old(Model()), next, built, added)
              else old(Model())
    {
      if closed || replacing || view != Some(contents) || viewGeneration != generation { return false; }
      replacing := true;
      var wasVisible := visible;
      DropView();
      if built {
        OpenView(next, added);
        if !wasVisible { DetachView(); }
      }
      replacing := false;
      replaced := built;
    }

    method Discard(idle: bool) returns (discarded: bool)
      requires Valid()
      modifies this`attached, this`view, this`crashed
      ensures Valid() && discarded == (!closed && !visible && idle)
      ensures Model() == if discarded then CloseView(old(Model())) else old(Model())
    {
      discarded := !closed && !visible && idle;
      if discarded { DropView(); }
    }

    method CloseSurface()
      requires Valid()
      modifies this
      ensures Valid() && Model() == Close(old(Model()))
    {
      if closed { return; }
      closed := true;
      DropView();
      visible := false;
    }
  }
}
