# Lock-In: block preferences and palette resolution

Lock-In is a mobile app paired with a small backend. The user picks the
distraction categories to block: YouTube Shorts, Instagram Reels, TikTok and
social media in general. This project models the two pure parts of the
mobile client.

- **Block preferences** (module `BlockPreferences`, `block_preferences.dfy`).
  The state is a record of four booleans, one per category. A reducer receives
  two kinds of action. `reset` returns the all-off default record. `set(key, value)`
  returns a copy of the state in which only that key is overwritten. The
  reducer is a function. React's `useReducer` runs actions one after another,
  starting from the default record; `Run` models this by folding a sequence of
  actions. `LastWrite` is a separate reference definition that reads a key's
  value from the last action that touched it.
- **Palette resolution** (module `ThemeColors`, `theme_colors.dfy`). There are
  two constant palettes, light and dark, kept in a table indexed by theme
  name. The platform reports a colour scheme: `'light'`, `'dark'`, `null` or
  `undefined`. `'dark'` selects the dark palette and every other value selects
  the light one. The screens first reduce the scheme to `'dark'` or `'light'`
  and then resolve it. `Normalize` models that step, and a lemma proves it
  does not change the result.

The four categories, the actions and the colour scheme are closed
datatypes. Palette colours are the source's hex strings, treated as opaque
values.

## Model

| member | source | states |
|---|---|---|
| `BlockPreferences.DefaultAllFalse` | mobile/context/BlockPreferencesContext.tsx:13-18 | every key of the default record is off |
| `BlockPreferences.StateExtensionality` | mobile/context/BlockPreferencesContext.tsx:3-5 | a toggle record is determined by its four lookups: records that agree on every key are equal |
| `BlockPreferences.Get` | mobile/context/BlockPreferencesContext.tsx:5 | the `state[key]` lookup on the toggle record; no contract of its own, its meaning is fixed by `StateExtensionality` and the contract of `Reducer` |
| `BlockPreferences.Reducer` | mobile/context/BlockPreferencesContext.tsx:26-35 | `reset` yields the default record whatever the state; after `set(key, value)` the key reads `value` and every other key reads what it read before |
| `BlockPreferences.SetIdempotent` | mobile/context/BlockPreferencesContext.tsx:31-34 | applying the same `set` twice equals applying it once |
| `BlockPreferences.SetOverwrites` | mobile/context/BlockPreferencesContext.tsx:31-34 | a later `set` of a key cancels an earlier `set` of the same key (last write wins) |
| `BlockPreferences.SetCommutes` | mobile/context/BlockPreferencesContext.tsx:31-34 | `set` actions on two different keys commute |
| `BlockPreferences.SetUnchangedIff` | mobile/context/BlockPreferencesContext.tsx:31-34 | `set(key, value)` returns a record equal to its input if and only if the key already holds `value` |
| `BlockPreferences.Run` | mobile/context/BlockPreferencesContext.tsx:38 | the in-order dispatch that `useReducer` performs: no actions leave the state as it was, a final `reset` gives the default record, and a final `set` leaves its key holding its value; `RunConcat`, `RunSnoc` and `RunMatchesLastWrite` fix the rest |
| `BlockPreferences.RunConcat` | mobile/context/BlockPreferencesContext.tsx:38 | dispatching one action sequence and then another is the same as dispatching their concatenation |
| `BlockPreferences.RunSnoc` | mobile/context/BlockPreferencesContext.tsx:38 | dispatching one more action applies the reducer once more to the state reached so far |
| `BlockPreferences.EndsInReset` | mobile/context/BlockPreferencesContext.tsx:27-28 | any action sequence that ends in `reset` yields the default record, whatever the starting state; so `reset` is idempotent |
| `BlockPreferences.ResetForgetsHistory` | mobile/context/BlockPreferencesContext.tsx:27-28 | what follows a `reset` behaves as if dispatched from the default record, whatever came before it |
| `BlockPreferences.RunMatchesLastWrite` | mobile/context/BlockPreferencesContext.tsx:26-35 | the folded reducer agrees, key by key, with the reference `LastWrite`: the last `set` of the key, off after a later `reset`, otherwise the starting value |
| `BlockPreferences.LastWriteOnIff` | mobile/context/BlockPreferencesContext.tsx:13-18 | from the default record, `LastWrite` reports a key on if and only if some `set(key, true)` is followed by no `reset` and no other `set` of that key |
| `BlockPreferences.FromDefaultOnIff` | mobile/context/BlockPreferencesContext.tsx:38 | from the initial record given to `useReducer`, a key is on after a sequence of actions if and only if some `set(key, true)` is followed by no `reset` and no other `set` of that key |
| `ThemeColors.PalettesTotal` | mobile/theme/colors.ts:33-36 | the palette table has an entry for every theme name, and its entries are exactly the light and dark palettes |
| `ThemeColors.ResolvePalette` | mobile/theme/colors.ts:38-39 | total over `'light'`, `'dark'`, `null`, `undefined`; the result is always an entry of the table; it is the dark palette if and only if the scheme is `'dark'`, and the light palette otherwise |
| `ThemeColors.Normalize` | mobile/app/_layout.tsx:30 | the screens' normalisation yields `dark` if and only if the scheme is `'dark'` |
| `ThemeColors.NormalizeThenResolve` | mobile/components/SafeScreen.tsx:14-15 | normalising the scheme before resolving it does not change the palette |
| `ThemeColors.NormalizeNamed` | mobile/app/_layout.tsx:30 | normalising a scheme that is already a theme name returns that name |
| `ThemeColors.ResolveNamed` | mobile/theme/colors.ts:33-39 | resolving a theme name returns that name's entry of the table |
| `ThemeColors.SurfaceIsBackground` | mobile/theme/colors.ts:13-31 | in each palette the surface colour equals the background colour |
| `ThemeColors.BackgroundDistinguishes` | mobile/theme/colors.ts:14-24 | the light and dark palettes have different backgrounds, and the resolved background equals the dark background if and only if the scheme is `'dark'` |

## Left out

- backend/server.js is not modelled. It reads the environment, routes Express requests and makes two Cloudflare SDK create calls, at lines 19 and 37. These are network I/O with no local logic beyond building request bodies. The gateway rule created at line 19 is named with `crypto.randomUUID` (line 22), which is not deterministic. The access policy created at line 37 gets the fixed name `Access Policy for <email>` (line 40).
- backend/server.js builds no traffic clauses and never looks a policy up by name before creating one. There is no clause compiler and no create-or-update logic to model.
- React plumbing in mobile/context/BlockPreferencesContext.tsx is not modelled: the context object, `useReducer`, the memoised `setToggle` and `reset` callbacks, the Provider and `useBlockPreferences` (lines 20-24 and 37-66). The one thing kept is that actions are applied in order from `defaultToggles`. `Run` starting at `DefaultToggles` models that.
- The screens' rendering is not modelled. That covers mobile/app/_layout.tsx, mobile/components/SafeScreen.tsx, mobile/app/(tabs)/what-to-block.tsx and mobile/app/components/SignOutButton.tsx: navigation redirects, Clerk sign-in and sign-out, safe-area insets, status-bar style and styling. Only the scheme normalisation these screens share is modelled, as `Normalize`.
- The what-to-block screen keeps its own three-key toggle record with the same spread update (mobile/app/(tabs)/what-to-block.tsx:14-18, 58-59). It is local UI state, not the context's reducer, so it is not modelled separately.
- Toggle records are compared by value. The model does not track object identity. In the source, `set` always returns a fresh spread object, which is never `===` its input (mobile/context/BlockPreferencesContext.tsx:31-34). `reset` returns the one shared `defaultToggles` object (line 28). React's `Object.is` check tells these apart, so a `set` that changes nothing still re-renders.
- Colours are opaque strings. There is no colour arithmetic and no parsing of hex values.
