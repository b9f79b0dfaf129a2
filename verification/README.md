# SideQR frame pipeline: a Dafny model

SideQR is a small QR-code scanner component for Qt/QML. Each incoming video frame is
converted and annotated with an overlay for display. It is then handed to a worker
thread (`QRThread`) that decodes QR codes, and the decode results are reconciled by
`QRScanner._handle_results`, which announces newly seen payloads through the
`barcodeDetected` signal. This project models the three deterministic pieces of that
pipeline, all in `sideqr/qr_scanner.py`:

- **the single-slot frame mailbox** (`mailbox.dfy`, module `Mailbox`). The class
  `QRThread` holds the pending frame as an `Option<Frame>`. `AddFrame` overwrites it.
  `Take` returns it and clears the slot. `RunOnce` is one pass of the worker loop:
  take, then decode only a present frame of non-zero size. A ghost event history ties
  the class to a pure trace semantics (`PendingAfter`, `Delivered`). The latest-wins
  and no-double-delivery properties are proved about that semantics.
- **the decode-result reconciler** (`reconciler.dfy`, module `Reconciler`, and
  `scanner.dfy`, class `Scanner.QRScanner`). The state is the tracked symbol list and
  the empty-batch counter. `Reconcile` is the pure transition. `QRScanner.HandleResults`
  updates the fields in place, is proved equal to `Reconcile`, and returns the announced
  payloads as a duplicate-free sequence whose elements are exactly `Announced`.
  `ReplayMeaning` states the whole machine without it. From the initial state, the
  counter is the number of trailing empty batches. The tracked list is the last
  non-empty batch, unless more than 15 empty batches have followed it.
- **the overlay gate and fade** (`overlay.dfy`, module `Overlay`, and
  `QRScanner.HighlightPlan`). The overlay is drawn only when highlighting is on and
  something is tracked. The fade alpha is 255·(1 − clamp(counter, 0, 15)/15).

`wrappers.dfy` holds `Option`. `media.dfy` holds the frame and symbol values: a
decoded symbol is its payload bytes and its `(left, top, width, height)` box. The
barcode decoder is a function parameter `decode: Frame -> seq<Symbol>` of `RunOnce`.

Notes on the code's behaviour, which the model follows:

- Debounce is counted in empty decode batches, not measured in time. After a
  non-empty batch the counter is 0. The tracked list is cleared once more than 15
  empty batches have followed it. There are no timestamps and there is no
  configurable period.
- A non-empty batch replaces the tracked list wholesale. Duplicate payloads are kept
  in the list. Boxes are not merged per payload.
- One alpha, from the counter, is used for every tracked box. No alpha is computed
  per code from its age.

## Model

| member | source | states |
|---|---|---|
| `Media.Size` | sideqr/qr_scanner.py:25 | the frame's element count is non-zero iff its height, width and channel count are all non-zero |
| `Media.Payloads` | sideqr/qr_scanner.py:113 | a payload is in the set iff some symbol of the list carries it |
| `Mailbox.Step` | sideqr/qr_scanner.py:20-32 | a take leaves the slot empty; a slot that holds a frame after an event holds the frame that just arrived |
| `Mailbox.Decodable` | sideqr/qr_scanner.py:25 | a taken frame goes to the decoder iff it is present and none of its dimensions is zero |
| `Mailbox.QRThread.constructor` | sideqr/qr_scanner.py:12-16 | a new worker has no pending frame |
| `Mailbox.QRThread.AddFrame` | sideqr/qr_scanner.py:29-32 | the slot holds exactly the new frame, whatever was waiting before; nothing is delivered to the decoder |
| `Mailbox.QRThread.Take` | sideqr/qr_scanner.py:20-23 | returns the frame that was waiting (`None` on an empty slot) and leaves the slot empty |
| `Mailbox.QRThread.RunOnce` | sideqr/qr_scanner.py:20-27 | takes and clears the slot; a batch is produced iff the taken frame exists and has size > 0, and it is the decoder's output for that frame |
| `Mailbox.DeliveredSplit` | sideqr/qr_scanner.py:18-32 | frames reaching the decoder over two stretches of events are those of the first followed by those of the second, started from the slot the first left |
| `Mailbox.LatestArrivalWins` | sideqr/qr_scanner.py:20-32 | after arrivals `a` then `b` with no pass between, all later deliveries and slot contents depend on `b` only: `a` is lost |
| `Mailbox.SecondTakeDeliversNothing` | sideqr/qr_scanner.py:20-25 | a pass leaves the slot empty, so a second pass straight after delivers nothing |
| `Mailbox.DeliveredFacts` | sideqr/qr_scanner.py:20-32 | every delivered frame has size > 0 and was waiting initially or arrived during the run; deliveries never outnumber passes |
| `Reconciler.NewPayloads` | sideqr/qr_scanner.py:113 | a payload is new iff some symbol of the batch carries it and no tracked symbol does |
| `Reconciler.Announced` | sideqr/qr_scanner.py:112-116 | the announced payloads all come from the batch, none is already tracked, and for a non-empty batch every untracked payload of it is announced |
| `Reconciler.Reconcile` | sideqr/qr_scanner.py:111-122 | the transition keeps the invariant: the counter is never negative, and nothing is tracked once it exceeds 15 |
| `Reconciler.ReplayMeaning` | sideqr/qr_scanner.py:111-122 | from the initial state, counter = number of trailing empty batches; tracked = last non-empty batch, or empty once that count exceeds 15 |
| `Reconciler.ReachableInv` | sideqr/qr_scanner.py:117-122 | every state reached by any run of batches satisfies the invariant (counter never negative) |
| `Reconciler.EmptyRun` | sideqr/qr_scanner.py:119-122 | `n` empty batches add exactly `n` to the counter and keep the tracked list unless the counter passes 15 |
| `Reconciler.SightingThenSilence` | sideqr/qr_scanner.py:117-122 | after a non-empty batch the tracked list is exactly that batch with counter 0; it survives 15 empty batches and is gone after the 16th |
| `Reconciler.ExpiredAfterSixteen` | sideqr/qr_scanner.py:119-122 | from any reachable state, 16 or more empty batches in a row leave nothing tracked |
| `Reconciler.EmptyBatchStep` | sideqr/qr_scanner.py:119-122 | an empty batch announces nothing, adds exactly 1 to the counter and keeps the tracked list while the counter is at most 15 |
| `Reconciler.AnnouncedExactly` | sideqr/qr_scanner.py:112-116 | a payload is announced iff it is in the batch and not tracked; if every payload is already tracked nothing is announced |
| `Reconciler.NoRepeatWithinWindow` | sideqr/qr_scanner.py:113-122 | after batch `b` and at most 15 empty batches, a batch announces only payloads `b` lacked; `b` again announces nothing |
| `Reconciler.ReannouncedAfterExpiry` | sideqr/qr_scanner.py:113-122 | after 16 or more empty batches every payload of the next batch is announced again |
| `Overlay.Clamp` | sideqr/qr_scanner.py:89 | the result lies in `[lo, hi]`, equals `k` inside it and the nearer bound outside it |
| `Overlay.Alpha` | sideqr/qr_scanner.py:89 | alpha lies in 0..255, equals 255·(1 − clamp(k,0,15)/15) exactly, is 255 for k ≤ 0 and 0 for k ≥ 15 |
| `Overlay.AlphaMonotone` | sideqr/qr_scanner.py:89 | alpha never increases as the counter grows, and strictly falls for counters within 0..15 |
| `Overlay.Drawn` | sideqr/qr_scanner.py:85 | the overlay is drawn iff highlighting is on and the tracked list is non-empty |
| `Overlay.Outline` | sideqr/qr_scanner.py:90-96 | the stroke runs from (left, top) to (left + width, top + height), in colour (128, 100, 100, alpha), 5 pixels thick |
| `Scanner.Announce` | sideqr/qr_scanner.py:114-116 | every new payload is emitted, nothing else is, and none twice |
| `Scanner.QRScanner.constructor` | sideqr/qr_scanner.py:50-52 | a new scanner highlights, tracks nothing, and its counter is 0 |
| `Scanner.QRScanner.SetHighlight` | sideqr/qr_scanner.py:70-72 | the highlight flag takes the given value |
| `Scanner.QRScanner.HandleResults` | sideqr/qr_scanner.py:111-122 | the new fields are `Reconcile` of the old; the emitted payloads are distinct and exactly the announced set; the invariant is kept |
| `Scanner.QRScanner.HighlightPlan` | sideqr/qr_scanner.py:85-97 | a plan exists iff highlighting is on and something is tracked; it outlines every tracked box in order with alpha `Alpha(counter)`, which in a valid state is the unclamped 255 − 17·counter |
| `Scanner.FadeSchedule` | sideqr/qr_scanner.py:85-89 | after a sighting and `n` empty batches, the overlay is drawn with alpha 255 − 17·n for n ≤ 15 and not drawn from n = 16 on |
| `Scanner.DrawnAlphaUnclamped` | sideqr/qr_scanner.py:85-89 | in every reachable state in which the overlay is drawn, the counter is at most 15, so the clamp never cuts in |

## Left out

- `Alpha`: computed in exact arithmetic as 255 − 17·clamp(k). The source evaluates `int(255 * (1 - c / 15))` in double precision. That truncates to one less at c = 12, 13 and 14 (50, 33, 16 instead of 51, 34, 17).
- The worker's `while self._active` loop, `stop()`/`wait()`, `__del__` and the mutex are not modelled. They are concurrency and shutdown; the model covers a single pass and assumes each pass is atomic.
- Frame conversion and pixel work are not modelled: QImage/numpy/OpenCV colour conversion, the actual `cv2.rectangle` drawing and `cv2.addWeighted` blending, and building the output `QVideoFrame`. `HighlightPlan` models only which rectangles are stroked with what colour, and the blend weight.
- The `pyzbar.decode` call is an opaque function parameter. Decode exceptions are not modelled.
- `data.decode()` (UTF-8) is not modelled: payloads are announced as bytes. A payload that is not valid UTF-8 would raise in the source part-way through the announcements. The tracked list and counter would then not be updated, and this is not captured.
- The order of announcements comes from Python set iteration. The model leaves it unspecified: any order of the distinct new payloads.
- The delivery of decode batches from the worker to `_handle_results` through a Qt signal is not modelled. The reconciler is modelled on whatever batch sequence it receives.
- The Qt properties `videoSink` and `previewOutput`, the `highlightDetected` getter, and the `print` error handler are not modelled: they are UI binding and I/O.
- `setup.py`, `examples/main.py` and `sideqr/__init__.py` are not part of this model. They are packaging, bootstrap and QML registration.
