# AZUMI conversation state, in Dafny

AZUMI is a browser companion app: a 3D avatar that talks with the user through a streaming
speech model. This project models the conversation state that the `App` component keeps while
a session is running. That state is changed by the session callbacks in `App.tsx`:

- **Playback scheduler**: the cursor `nextStartTimeRef` and the set of active sources
  `sourcesRef`. Each decoded audio buffer starts at `max(cursor, currentTime)`. The cursor
  then moves to the end of that buffer. A finished source leaves the set. An interruption
  stops every source, empties the set and resets the cursor to 0.
- **Assistant state** `EstadoAsistente` (`estaConectada`, `estaHablando`, `emocionActual`,
  `nivelConfianza`), which the avatar view observes.
- **Emotion classifier** `analizarEmocion`. It lower-cases the text and tests four keyword
  groups in a fixed order. The first group that matches gives the emotion.
- **Transcript log** `agregarTranscripcion`. It keeps the last ten lines and appends the
  new one, so the log holds at most eleven lines.
- **Memory rule**. An avatar utterance longer than 30 characters replaces the remembered
  string with a fixed sentence. That sentence embeds the utterance's first 40 characters.

Files, one module each:

- `tipos.dfy` (`Tipos`): the enum and record shapes of `types.ts`.
- `emociones.dfy` (`Emociones`): lower-casing, substring search and the classifier.
- `transcripcion.dfy` (`Transcripcion`): the bounded log.
- `memoria.dfy` (`Memoria`): the memory template.
- `planificacion.dfy` (`Planificacion`): the scheduling rule on values, with lemmas over a
  whole run of buffers.
- `app.dfy` (`App`): two classes.
  - `Fuente` is one playback source.
  - `Aplicacion` holds the component's state. Its methods are the callbacks `OnOpen`,
    `OnMessage`, `OnError`, `OnClose` and `OnEnded`, plus the blocks `Schedule`,
    `Interrupt`, `RecibirAudio`, `Escuchar`, `Responder`, `Transcribir` and `TrasAudio`. Its invariant `Valid()` says:
    - the cursor is non-negative;
    - every active source has started, has not been stopped, and ends by the cursor;
    - no two active sources overlap;
    - `estaHablando` holds while any source is active;
    - the log holds at most eleven lines.

Modelling conventions:

- Times are exact `real` seconds.
- The output clock `currentTime`, each decoded buffer's `duration` and `Date.now()` are
  method parameters.
- Decoding an audio payload is one opaque step. It gives a duration of at least 0, or
  `None` when it throws.
- A `char` is a Unicode scalar value. For text in the Basic Multilingual Plane, one `char`
  is one UTF-16 code unit, so lengths and `substring` positions agree with JavaScript's.
  Text outside that plane is covered under "Left out".

What the code does, as modelled:

- A payload that fails to decode has already set `estaHablando` to true (App.tsx:108).
  The exception then ends the message. Its transcriptions and its interruption flag are
  never processed, and the flag stays set.
- An `onended` for a source that is no longer active changes nothing in the set. It can
  still clear the flag when the set is empty.
- The connection callbacks change only the boolean `estaConectada`, and the model follows
  them. The code also keeps `estaIniciada` (App.tsx:10). It is set once the session is
  connected (App.tsx:147) and is never reset. That flag belongs to the session set-up,
  which is not part of this model (see "Left out").

## Model

| member | source | states |
|---|---|---|
| `Emociones.MinusculaChar` | App.tsx:158 | The result is never an upper-case letter. A letter A-Z or À-Þ (except ×) moves to its lower-case form, 32 code points up. Every other character is unchanged. |
| `Emociones.Minusculas` | App.tsx:158 | `toLowerCase` keeps the length and leaves no upper-case letter. Each upper-case letter (A-Z, À-Þ except ×) becomes its lower-case form, 32 code points up. Every other character is kept. |
| `Emociones.MinusculasIdempotente` | App.tsx:158 | Lower-casing text that is already lower-cased changes nothing. |
| `Emociones.Contiene` | App.tsx:160-167 | The `includes` search is true when the keyword starts the text, and only when the keyword fits in the text. `ContieneSiiAparece` gives its full meaning. |
| `Emociones.ContieneSiiAparece` | App.tsx:160-167 | The executable `includes` search returns true exactly when the keyword occurs at some index of the text. |
| `Emociones.ContieneAlguna` | App.tsx:160-167 | A branch's chain of `includes` tests joined by logical or is true exactly when some keyword of the group is found by `includes`. |
| `Emociones.ContieneAlgunaSiiMenciona` | App.tsx:160 | A branch's chain of `includes` tests joined by logical or holds exactly when some keyword of its group occurs in the text. |
| `Emociones.AnalizarEmocion` | App.tsx:157-171 | Five if-and-only-if clauses. FELIZ exactly when a happy keyword occurs in the lower-cased text. TRISTE exactly when no happy keyword occurs but a sad one does. SORPRENDIDA and ENOJADA follow the same first-match order. NEUTRAL exactly when no group matches. |
| `Emociones.FelizGana` | App.tsx:160-162 | Any happy keyword in the lower-cased text gives FELIZ, whatever other keywords occur. |
| `Emociones.IgnoraMayusculas` | App.tsx:158 | A text and its lower-cased form get the same emotion. |
| `Emociones.EjemploFeliz` | App.tsx:160-161 | "muchas gracias, jeje" is FELIZ. |
| `Emociones.EjemploTriste` | App.tsx:162-163 | "lo siento mucho" is TRISTE. |
| `Emociones.EjemploSorprendida` | App.tsx:164-165 | "wow, nani?!" is SORPRENDIDA. |
| `Emociones.EjemploEnojada` | App.tsx:166-167 | "estás baka" is ENOJADA. |
| `Emociones.EjemploNeutral` | App.tsx:168-170 | "hola como estas" is NEUTRAL. |
| `Emociones.EjemploPrioridad` | App.tsx:160-163 | "gracias, estoy triste" matches both the happy and the sad group, and is FELIZ. |
| `Transcripcion.Ultimos` | App.tsx:154 | For a positive `n`, `slice(-n)` returns the last `min(n, length)` elements, as a suffix of the input. |
| `Transcripcion.AgregarTranscripcion` | App.tsx:153-155 | The new log has 1 to 11 entries. Its last entry is the new line with its author and timestamp. The entries before it are a suffix of the old log, in the same order. An old log of at most ten entries loses nothing. An old log of ten or more entries gives exactly eleven. |
| `Transcripcion.AgregarEsVentana` | App.tsx:154 | One append gives the last eleven entries of the old log followed by the new line, so the oldest entries are dropped first. |
| `Transcripcion.AgregarTodasEsVentana` | App.tsx:153-155 | After any number of appends, the log is the last eleven entries of the old log followed by all new lines, in arrival order. With no appends the log is unchanged. |
| `Memoria.Extracto` | App.tsx:130 | `substring(0, 40)` is a prefix of the text of at most 40 characters. It is the whole text when the text is shorter, and exactly 40 characters otherwise. |
| `Memoria.Recuerdo` | App.tsx:130 | The template literal is as long as its two fixed parts plus the excerpt. Reading it back with `LeerExtracto` gives exactly the excerpt. |
| `Memoria.ActualizarMemoria` | App.tsx:129-132 | An utterance of at most 30 characters keeps the memory. After a longer one, the memory reads back as that utterance's excerpt. |
| `Memoria.MemoriaSoloConTextoLargo` | App.tsx:129-132 | An utterance of at most 30 characters leaves the memory unchanged. A longer one replaces it with the template. So the memory changes only after an utterance longer than 30 characters. |
| `Memoria.RecuerdoConservaExtracto` | App.tsx:130 | After a long utterance, the memory is the fixed prefix, then the excerpt, then the fixed suffix. Reading the excerpt back gives the utterance's first 31 to 40 characters. |
| `Memoria.RecuerdoSoloDelExtracto` | App.tsx:129-131 | The new memory depends only on the utterance's first 40 characters. It does not depend on the old memory. |
| `Memoria.RecuerdoInyectivo` | App.tsx:130 | Two long utterances give the same memory only when their excerpts are equal. |
| `Planificacion.Inicio` | App.tsx:113 | The start is at least the cursor and at least the clock, and equals one of them, i.e. it is their maximum. |
| `Planificacion.InicioSiguiente` | App.tsx:113-115 | In a run without interruption, each buffer starts at the maximum of two times: where the previous buffer ends, and the clock when it is scheduled. The clock wins only on an underrun. |
| `Planificacion.NoEmpiezaAntes` | App.tsx:113 | No buffer starts before the clock reading at which it was scheduled. |
| `Planificacion.SinSolapamiento` | App.tsx:113-115 | With non-negative durations, every later buffer in a run starts at or after the end of every earlier one. |
| `Planificacion.CursorCubreTodo` | App.tsx:113-115 | With non-negative durations, the cursor never moves back. After a run it lies at or past the end of every buffer of the run. |
| `App.Fuente.constructor` | App.tsx:110-111 | A new source holds the buffer's duration and is neither started nor stopped. |
| `App.Fuente.Start` | App.tsx:114 | `start(t)` records `t` as the source's start. |
| `App.Fuente.Stop` | App.tsx:135 | `stop()` marks the source as stopped. |
| `App.HayAudio` | App.tsx:106-107 | JavaScript truthiness of the payload: an absent or empty payload is ignored, and any other payload is processed. |
| `App.RegistroTras` | App.tsx:122-126 | The log after one message. With no transcription it is unchanged. Otherwise it has 1 to 11 lines. The avatar's line, when present, is last. The user's line, when present, comes right before it, or is last when there is no avatar line. `RegistroEsVentana` gives the older entries as well. |
| `App.RegistroEsVentana` | App.tsx:122-126 | The log after one message is the last eleven entries of the old log followed by that message's lines (user, then avatar), in order. With no lines the log is unchanged. |
| `App.Aplicacion.constructor` | App.tsx:13-35 | The initial state: not connected, not speaking, NEUTRAL, confidence 100, empty log, cursor 0, no sources. The memory is the stored string, or empty when none is stored. |
| `App.Aplicacion.OnOpen` | App.tsx:87-88 | Sets `estaConectada` to true and changes nothing else. |
| `App.Aplicacion.OnClose` | App.tsx:142 | Sets `estaConectada` to false and changes nothing else. |
| `App.Aplicacion.OnError` | App.tsx:141 | Changes no state. |
| `App.Aplicacion.Schedule` | App.tsx:110-120 | The new source starts at `max(cursor, clock)`, so at or after both. The cursor moves to the source's end and never decreases. The new source starts after every active source has ended. It starts exactly at the clock when the cursor was 0. The set gains exactly this source. `Valid()` is kept. |
| `App.Aplicacion.OnEnded` | App.tsx:116-119 | Removes only that source. `estaHablando` becomes false exactly when the set is then empty. The cursor, log and memory are unchanged. |
| `App.Aplicacion.Interrupt` | App.tsx:134-139 | Whatever the prior state: every active source is stopped, the set becomes empty, the cursor becomes 0 and `estaHablando` becomes false. The log and memory are unchanged. |
| `App.Aplicacion.RecibirAudio` | App.tsx:106-121 | A non-empty payload sets `estaHablando`. A payload that decodes is scheduled as in `Schedule`. An absent, empty or undecodable payload schedules nothing. |
| `App.Aplicacion.Escuchar` | App.tsx:122 | The user's line is appended to the log, and nothing else changes. `Valid()` is kept. |
| `App.Aplicacion.Responder` | App.tsx:123-133 | The avatar's line is appended to the log. `emocionActual` becomes its classification. The memory is updated by the memory rule. Nothing else changes. `Valid()` is kept. |
| `App.Aplicacion.Transcribir` | App.tsx:122-133 | The user's line, then the avatar's line, are appended to the log. Only the avatar's line sets `emocionActual` to its classification and may rewrite the memory. A user line never touches the memory or the emotion. |
| `App.Aplicacion.TrasAudio` | App.tsx:122-139 | After the audio part: the log, memory and emotion are as in `Transcribir`, and the connection flag and confidence are unchanged. With the interruption flag, every source active at that point is stopped, the set is emptied, the cursor is 0 and `estaHablando` is false. Without it, the sources, the cursor and `estaHablando` are unchanged. `Valid()` is kept. |
| `App.Aplicacion.OnMessage` | App.tsx:105-140 | One message runs audio, then transcriptions, then interruption. An undecodable payload leaves only `estaHablando` set. Otherwise: the log, memory and emotion are as in `Transcribir`, and the connection flag is unchanged. With the interruption flag, everything is stopped and cleared, including the just-scheduled source. Without it, the set gains the new source and the cursor moves to its end. `Valid()` is kept. |

## Left out

- The PCM codec (`decodificarBase64`, `decodificarAudioPCM`, `crearBlobPCM`) comes from
  `services/audioService`, which is not part of this model. Decoding is a parameter: the
  buffer's duration, or failure. Encoding and quantisation are not modelled.
- The microphone path (App.tsx:89-103) is not modelled. It multiplies floating-point
  samples by the sensitivity inside a `ScriptProcessor` callback, then encodes and sends
  them.
- The following are network, media and foreign-SDK I/O and are not modelled:
  - the streaming session (`ai.live.connect`) and its setup;
  - the flag `estaIniciada` (App.tsx:10, 50, 147, 274). It becomes true after connecting
    and is never reset. So after `onclose` the start button stays hidden and
    `iniciarAzumi` returns at once: a closed session cannot be restarted. The model's
    `OnClose` clears `estaConectada` only and does not capture this closed-for-good state;
  - `getUserMedia` and the permission alert;
  - the system-instruction text (App.tsx:49-85, 146-150).
- `localStorage` reads and writes are not modelled. The memory is the field `memoria`, and
  the value read at start-up is a constructor parameter.
- Asynchrony is not modelled. Each message is one sequential step, and the `await` at
  App.tsx:109 is not a suspension point. In the running app, other callbacks can run during
  that `await`, with two consequences the model does not show:
  - The previous source can end normally during the decode. Its `onended` empties the set
    and clears `estaHablando`, and then the new source plays while the flag is false. The
    invariant "active sources imply speaking" relies on messages being atomic.
  - An interruption can arrive during the decode. It clears the set and resets the cursor,
    and then audio from before the interruption is scheduled after it.
- `Emociones.MinusculaChar` lower-cases only Basic Latin and Latin-1 letters. JavaScript's
  `toLowerCase` also maps other scripts and a few special characters, for example the Kelvin
  sign to "k" and a dotted capital I to two code units. Those mappings are not modelled.
- `Memoria.Extracto` and `Memoria.ActualizarMemoria` count one `char` per Unicode scalar
  value. For text outside the Basic Multilingual Plane, such as emoji, JavaScript counts two
  UTF-16 code units per character. So the "longer than 30" test and `substring(0, 40)`
  can differ from the source on such text. A cut through a surrogate pair, which
  `substring` can make, has no counterpart in the model.
- The message shape is assumed well-formed:
  - A present transcription always carries its text. At App.tsx:123-126, an output
    transcription without `text` is first logged with an undefined text. Then `toLowerCase`
    at App.tsx:158 throws, so the emotion, memory and interruption steps never run.
  - A present `modelTurn` always has `parts`. At App.tsx:106, `parts[0]` throws when `parts`
    is absent, which ends the whole message.
  - `Mensaje` cannot represent either case.
- `Date.now()` and `currentTime` are parameters. The clock is assumed to be non-negative,
  as an `AudioContext` clock is.
- The 3D avatar (`components/VrmViewer.tsx`), the settings panel
  (`components/ConfigMenu.tsx`), the JSX, the themes and the CSS are not modelled. They are
  rendering and UI, not conversation state.
