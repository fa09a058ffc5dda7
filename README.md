# wezterm: tmux control-mode line decoder and X11 damage bookkeeping

A Dafny model of two small pieces of the wezterm terminal emulator.

**The tmux domain** (`src/mux/tmux.rs`, module `Tmux`). `TmuxDomain` is the
multiplexer domain used for a tmux session running in control mode (`tmux -CC`).
The remote tmux writes bytes, and `advance` gets them one at a time. It collects
them in a line buffer. When LF arrives, it removes one trailing CR, hands on the
line, and clears the buffer. The Rust code only logs the line. The model keeps
every emitted line in a ghost sequence `emitted`, so properties about whole streams
can be stated. The class mirrors the Rust struct: a constant id, the id of the
embedding tab, and the line buffer, which `Advance` updates in place. The function
`Step` specifies one call of `advance`, and `Feed` is `Step` applied to each byte
in turn. Two more facts are proved about `Feed`:

- Chunking independence: feeding chunks one after another gives the same state as
  feeding their concatenation.
- Its result equals an independent reference. `Split` cuts the stream at every LF
  (it is the inverse of `Frame`, which joins lines with LF). The lines the decoder
  emits are `Split`'s segments, each with one trailing CR removed, and its buffer
  holds `Split`'s unterminated tail.

The rest of the domain is a fixed capability surface. The name is `"tmux"` and the
state is always `Attached`. `attach` succeeds, while `spawn` and `detach` fail with
the source's messages.

**The X11 window** (`window/src/os/x11/window.rs`, module `X11Window`). `Rect`
arithmetic works on u16 values:

- `right`/`bottom` are plain u16 additions, so the model requires that they do not
  overflow.
- `enclosing_boundary_with` is proved to be the least rectangle enclosing both inputs.
- `intersects_with` is modelled exactly as written (see Findings).

`WindowInner` is a class with these fields: the window size, the expose queue (a
`VecDeque` there, a `seq` here), the `paint_all` flag, and two ghost logs. The logs record
the rectangles handed to the drawing calls and the calls made on the window
callbacks. They replace the xcb drawing calls and the foreign callback object.

- `Expose` coalesces a new rectangle into the back of the queue or appends it. A
  rectangle exposed since the last `Paint` stays enclosed by some queue entry, because
  each `Expose` keeps every covered rectangle covered (`CoalescedKeepsDamage`).
- `Paint` drains the queue in FIFO order, clips each rectangle to the window size,
  and leaves the queue empty. With `paint_all` set, it first resets the queue to the
  full window.
- `DispatchEvent` handles an abstract event type. Exposure events go to the queue. A
  configure event sets the size. Motion and button events are classified into mouse
  events, with negative coordinates clamped to 0.

## Model

| member | source | states |
|---|---|---|
| `Tmux.StripCr` | src/mux/tmux.rs:37-39 | one trailing CR is removed when present (the line plus CR is the buffer); otherwise the line is the buffer unchanged |
| `Tmux.Feed` | src/mux/tmux.rs:30-51 | feeding bytes keeps the partial line LF-free if it started LF-free, and only appends to the emitted lines |
| `Tmux.TmuxDomain.constructor` | src/mux/tmux.rs:20-27 | a new domain has the given id and embedding tab, an empty line buffer, no emitted lines, and satisfies the no-LF invariant |
| `Tmux.TmuxDomain.Advance` | src/mux/tmux.rs:30-51 | a non-LF byte is appended to the buffer and nothing is emitted; LF emits the buffer minus one trailing CR and empties the buffer; the buffer never holds LF; the change agrees with `Step` |
| `Tmux.FeedNoLf` | src/mux/tmux.rs:48-50 | bytes without LF only extend the partial line and emit nothing |
| `Tmux.FeedLine` | src/mux/tmux.rs:34-47 | an LF-free line followed by LF is emitted whole with one CR stripped, and the next line starts from an empty buffer |
| `Tmux.FeedAppend` | src/mux/tmux.rs:30-51 | feeding s1 and then s2 gives the same emitted lines and buffer as feeding s1+s2 |
| `Tmux.FeedChunksIsFeedConcat` | src/mux/tmux.rs:30-51 | however the stream is cut into chunks, the final state equals feeding the concatenated stream |
| `Tmux.FeedFrame` | src/mux/tmux.rs:30-51 | a stream of LF-terminated LF-free lines plus a tail emits exactly those lines, each CR-stripped, and leaves the tail in the buffer |
| `Tmux.DecodeStream` | src/mux/tmux.rs:30-51 | from a new domain, the emitted lines are the LF-terminated segments of the input, each with one trailing CR removed, and the unterminated tail is the buffer |
| `Tmux.CrLfExamples` | src/mux/tmux.rs:34-47 | "abc\r\n" gives the single line "abc"; "a\r\r\n" gives the single line "a\r" |
| `Tmux.TmuxDomain.DomainId` | src/mux/tmux.rs:68-70 | the id is the one fixed at construction (a constant field) |
| `Tmux.TmuxDomain.DomainName` | src/mux/tmux.rs:73-75 | the name is always "tmux" |
| `Tmux.TmuxDomain.State` | src/mux/tmux.rs:88-90 | the state is always Attached |
| `Tmux.TmuxDomain.Attach` | src/mux/tmux.rs:78-80 | attaching always succeeds and changes nothing |
| `Tmux.TmuxDomain.Detach` | src/mux/tmux.rs:83-85 | detaching always fails with "detach not impl for TmuxDomain" and changes nothing |
| `Tmux.TmuxDomain.Spawn` | src/mux/tmux.rs:56-64 | spawning always fails with "spawn not impl for TmuxDomain", whatever the arguments, and changes nothing |
| `X11Window.ValueInRange` | window/src/os/x11/window.rs:20-22 | true exactly when min <= value <= max, inclusive at both ends |
| `X11Window.Rect.Right` | window/src/os/x11/window.rs:25-27 | without overflow, the right edge lies width past x and never before it |
| `X11Window.Rect.Bottom` | window/src/os/x11/window.rs:29-31 | without overflow, the bottom edge lies height past y and never before it |
| `X11Window.Rect.EnclosingBoundaryWith` | window/src/os/x11/window.rs:33-46 | x and y are the minima, right and bottom are the maxima; the result fits in u16 and encloses both inputs |
| `X11Window.EnclosingBoundaryCommutes` | window/src/os/x11/window.rs:33-46 | the enclosing boundary does not depend on argument order |
| `X11Window.EnclosingBoundarySelf` | window/src/os/x11/window.rs:33-46 | the enclosing boundary of r with r is r |
| `X11Window.EnclosingBoundaryIsLeast` | window/src/os/x11/window.rs:33-46 | any rectangle enclosing both inputs encloses their enclosing boundary |
| `X11Window.Rect.IntersectsWith` | window/src/os/x11/window.rs:49-57 | when it holds, the closed x-ranges of the two rectangles overlap |
| `X11Window.IntersectsWithSelf` | window/src/os/x11/window.rs:49-57 | every rectangle intersects itself |
| `X11Window.IntersectsWithTouching` | window/src/os/x11/window.rs:49-57 | side-by-side rectangles whose edges only touch intersect, both ways round, because the comparisons are inclusive |
| `X11Window.XOverlapsIff` | window/src/os/x11/window.rs:50-51 | the x test holds exactly when the closed x-ranges overlap, and it is symmetric in its arguments |
| `X11Window.IntersectsWithMissesOverlap` | window/src/os/x11/window.rs:53-54 | as written, two overlapping rectangles are disjoint one way round and intersecting the other way |
| `X11Window.IntersectsWithFalsePositive` | window/src/os/x11/window.rs:53-54 | as written, rectangles with disjoint rows can be reported as intersecting |
| `X11Window.Rect.IntersectsWithIntended` | window/src/os/x11/window.rs:49-57 | the corrected test holds exactly when both the closed x-ranges and the closed y-ranges overlap |
| `X11Window.IntersectsWithIntendedSymmetric` | window/src/os/x11/window.rs:49-57 | the corrected test is symmetric |
| `X11Window.Coalesced` | window/src/os/x11/window.rs:216-230 | if the queue is non-empty and its back intersects the new rect, the length stays and the back becomes their enclosing boundary; otherwise the new rect is appended; all earlier entries are unchanged; every entry still fits in u16 |
| `X11Window.CoalescedKeepsDamage` | window/src/os/x11/window.rs:211-230 | the new rectangle is enclosed by some queue entry afterwards, and so is every rectangle that was enclosed before |
| `X11Window.Clip` | window/src/os/x11/window.rs:156-161 | a clipped rect keeps x and y; its width is the smaller of its own width and the window width, and likewise for height |
| `X11Window.ClipAll` | window/src/os/x11/window.rs:151-161 | the painted sequence has one clipped rect per queue entry, in queue order |
| `X11Window.PaintQueue` | window/src/os/x11/window.rs:132-138 | with paint_all set, the rects to paint are exactly the full window; otherwise they are the queue |
| `X11Window.ClipWindowRect` | window/src/os/x11/window.rs:125-135 | the full-window rect is unchanged by clipping |
| `X11Window.ButtonKind` | window/src/os/x11/window.rs:277-301 | details 1-3 give Press or Release according to the event type; 4 and 5 give VertWheel(+1/-1) on press and nothing on release; any other detail gives nothing |
| `X11Window.ButtonKindInverse` | window/src/os/x11/window.rs:278-290 | the result is Press(b) exactly for a press of b's button number, and Release(b) exactly for a release of it, where Left, Middle and Right are 1, 2 and 3 |
| `X11Window.ClampCoord` | window/src/os/x11/window.rs:267-268 | negative coordinates become 0; others are kept |
| `X11Window.MouseEventOf` | window/src/os/x11/window.rs:262-311 | motion always gives a Move event; a button event gives an event exactly when its detail is handled, and its kind is the one `ButtonKind` gives; coordinates are clamped |
| `X11Window.WindowInner.constructor` | window/src/os/x11/window.rs:399-409 | a new window has its size, an empty queue and paint_all set |
| `X11Window.WindowInner.Expose` | window/src/os/x11/window.rs:216-230 | the queue becomes `Coalesced` of the old queue: merged into an intersecting back (same length, earlier entries unchanged) or appended |
| `X11Window.WindowInner.Paint` | window/src/os/x11/window.rs:124-161 | paint_all is cleared and the queue reset to the full window before painting; an empty queue with paint_all clear paints nothing; the queue is painted in FIFO order, clipped to the window, and left empty |
| `X11Window.WindowInner.DispatchEvent` | window/src/os/x11/window.rs:232-331 | expose events coalesce into the queue; configure sets width and height and reports a resize; motion and button events report the classified mouse event or nothing; nothing else changes |

## Left out

- The tmux control protocol beyond line assembly is not in the source. The source has no `%begin`/`%end` classification, no command dispatch and no remote-window reconciliation, only a TODO where the line is logged. So none of these is modelled.
- `String::from_utf8_lossy` and the log output: emitted lines are kept as bytes.
- `alloc_domain_id` is not part of this model. The id is a constructor parameter, and the model makes no claim that ids are unique across domains.
- The `RefCell` borrow in `TmuxDomain` and the `Arc<Mutex<...>>` around `WindowInner` are left out, since they are interior-mutability and locking mechanics.
- `Spawn`'s arguments have simple stand-in types (`PtySize`, argv as `seq<string>`, a tab id for the returned tab), since the method ignores them.
- All xcb calls, `BufferImage` reallocation and the pixel copies in `paint` are left out, since they are FFI and pixel compositing. The model records only the clipped rects painted.
- The `WindowCallbacks` object is foreign. The model records the resize and mouse calls made on it. The per-rect `paint` callback is implied by the painted-rect log.
- `X11Window.WindowInner.DispatchEvent`: key events, CLIENT_MESSAGE and DESTROY_NOTIFY are one `OtherEvent` that changes nothing in the model. Their handling depends on keyboard and connection state kept outside `WindowInner`. The raw response-type decoding (`& 0x7f` and the xcb event codes) is replaced by the abstract `Event` type.
- `X11Window.MouseEventOf`: keyboard modifiers and held mouse buttons of a mouse event are not modelled, since `modifiers_from_state` (in `xkeysyms`) is not modelled.
- `X11Window.Rect.Right`: it requires that x + width does not overflow u16. The Rust addition panics in debug builds and wraps in release builds, and neither case is modelled. The same applies to `Bottom`, to `EnclosingBoundaryWith`, to `IntersectsWith`, and to the exposure rect that `Expose` and `DispatchEvent` receive.
- `Window::new_window`, `set_title`, `show`, `paint_if_needed` and the `Drawable` impl are left out as FFI plumbing. Of `new_window`, only the initial `WindowInner` state is modelled, as the constructor.

## Findings

| source | as written | input that shows it | evidently intended | confidence | as-written member | corrected member |
|---|---|---|---|---|---|---|
| window/src/os/x11/window.rs:53-54 | the second half of the y test is `value_in_range(other.y, self.x, self.bottom())` | a = (x 100, y 0, 10x10), b = (x 100, y 5, 10x10): they share rows 5..10, yet `a.intersects_with(b)` is false and `b.intersects_with(a)` is true; also (x 0, y 100, 10x10) against (x 0, y 5, 10x10) is reported intersecting although rows 100..110 and 5..15 are disjoint | `value_in_range(other.y, self.y, self.bottom())`, mirroring the x test | high; not executed | `X11Window.Rect.IntersectsWith`, `X11Window.IntersectsWithMissesOverlap`, `X11Window.IntersectsWithFalsePositive` | `X11Window.Rect.IntersectsWithIntended`, `X11Window.IntersectsWithIntendedSymmetric` |

The expose queue (`Coalesced`, `WindowInner.Expose`) uses the test as written, because that is what the queue does. `CoalescedKeepsDamage` holds for any merge test, so the defect never loses damage. It only merges rectangles that need not be merged, or leaves apart rectangles that overlap.
