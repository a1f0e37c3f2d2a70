# pytti prompt descriptors in Dafny

This project models how pytti turns a prompt descriptor into a prompt. The code lives in
`Perceptor/Prompt.py`. A descriptor is a string `text[:weight[:stop]]`.

- `MultiClipPrompt` builds text prompts. It splits the descriptor on `:`.
- `MultiClipImagePrompt` builds image prompts. It splits on a regular expression that leaves
  the colon of an `http://` or `https://` address alone.

Both ask `re.split` for at most two splits. Both pad a short result with the defaults
`''`, `'1'` and `'-inf'`, strip the three fields, and convert weight and stop with `float()`.
The resulting `Prompt` keeps two strings: the descriptor itself (its `repr`) and a display text
(its `str`). For image prompts the display text is the stripped text followed by
`" (semantic)"`.

The modules are:

- `Wrappers`: `Option` and `Result`.
- `PyStrings`: Python's `str.isspace`, `str.strip()` and `sep.join`.
- `ReSplit`: the two separator patterns and `re.split(pattern, s, 2)`.
  - The split is written as the regex engine's left-to-right scan, `SplitScan`.
  - It is proved equal to a reference definition: cut the string at the first two of all
    match positions (`Delims`, `Take`, `Cut`).
- `Prompts`: padding, the three fields, the two constructors, `repr` and `str`.
- `PromptExamples`: concrete descriptors worked through the model.

`float()` is the parameter `toFloat: string -> Option<N>`. `None` means `float()` raises
`ValueError`. The number type `N` is left abstract. Loading the image is the parameter
`loads: string -> bool`. Whether `pil_image` was passed is the parameter `imageSupplied`.

Behaviour a reader may not expect from the docstring or the descriptor format (the model follows the code):

- A text descriptor with more than three fields is not rejected by the split. Every colon after
  the second stays in the stop field, so only `float()` refuses it
  (`ExtraFieldsStayInStop`, `ExtraFieldsRejectedByConversion`).
- The display text of an image prompt is built from the stripped text field, not the original
  text (`ImagePrompt`, `ImagePromptDisplay`).
- The image pattern protects only the colon of a leading `http://` and any colon preceded by `s`
  and followed by `//`. The colon of other schemes, such as `ftp://`, separates fields (`OtherSchemeSplits`).
- The docstring's rule that `sign(stop) == sign(weight)` is never checked, so a descriptor that
  breaks it is accepted (`SignMismatchAccepted`).

## Model

| member | source | states |
|---|---|---|
| PyStrings.IsSpace | Perceptor/Prompt.py:57-59 | Python's `str.isspace()`: the characters `strip()` removes; the separator `:`, digits, signs, `.` and letters are never among them |
| PyStrings.Strip | Perceptor/Prompt.py:57-59 | `str.strip()`: the result is no longer than the input and has no whitespace at either end |
| PyStrings.TrimStartSuffix | Perceptor/Prompt.py:57 | `lstrip` leaves the suffix after a run of whitespace, and that suffix does not start with whitespace |
| PyStrings.TrimEndPrefix | Perceptor/Prompt.py:57 | `rstrip` leaves the prefix before a run of whitespace, and that prefix does not end with whitespace |
| PyStrings.StripSlice | Perceptor/Prompt.py:57 | `strip()` returns a contiguous factor of its input, and only whitespace lies before and after it |
| PyStrings.StripOfStripped | Perceptor/Prompt.py:57 | a string with no whitespace at its ends is a fixed point of `strip()` |
| PyStrings.StripIdempotent | Perceptor/Prompt.py:57 | stripping twice equals stripping once |
| PyStrings.StripKeepsOut | Perceptor/Prompt.py:57 | `strip()` introduces no character that was not in its input |
| PyStrings.StripKeepsIn | Perceptor/Prompt.py:57 | every non-whitespace character of the input survives `strip()` |
| ReSplit.IsDelim | Perceptor/Prompt.py:67 | the match test of the image regex, and of the plain `':'` of line 54: every match is a single `:`, and the text pattern matches every `:` |
| ReSplit.Split | Perceptor/Prompt.py:54 | `re.split(pattern, s, 2)` (also line 67) yields one to three parts |
| ReSplit.SplitScan | Perceptor/Prompt.py:54 | `re.split` with a split budget yields at least one part and at most one more part than the budget |
| ReSplit.DelimsFromSound | Perceptor/Prompt.py:67 | every listed position from `i` on is a match of the pattern |
| ReSplit.DelimsFromComplete | Perceptor/Prompt.py:67 | every match from `i` on is listed |
| ReSplit.DelimsFromSorted | Perceptor/Prompt.py:67 | the match positions are listed in strictly increasing order |
| ReSplit.ScanCutsAtFirstMatches | Perceptor/Prompt.py:54 | the left-to-right scan cuts at the first `maxsplit` match positions and nowhere else |
| ReSplit.ScanStepAtMatch | Perceptor/Prompt.py:54 | at a match, the scan emits the text before it and continues exactly as cutting at the remaining matches does |
| ReSplit.SplitAtFirstTwo | Perceptor/Prompt.py:54 | `re.split(p, s, 2)` equals cutting `s` at its first two match positions (or all, if fewer) |
| ReSplit.SplitShapes | Perceptor/Prompt.py:67 | the split is `[s]` with no match, the text around the match with one, and three parts cut at the first two matches otherwise |
| ReSplit.SplitCount | Perceptor/Prompt.py:54 | the number of parts is one more than the number of matches, capped at three |
| ReSplit.JoinCut | Perceptor/Prompt.py:54 | joining the cut parts with `:` restores the string when every cut is a colon |
| ReSplit.SplitJoinRoundTrip | Perceptor/Prompt.py:54 | `':'.join(re.split(p, s, 2)) == s` for both patterns: splitting loses nothing but the separators |
| ReSplit.SplitUsesFirstMatches | Perceptor/Prompt.py:67 | every match is either one of the two cut positions or lies inside the third part |
| ReSplit.ColonSplitPartsColonFree | Perceptor/Prompt.py:54 | for text prompts, no part before the last holds a `:`, and neither does the last part of a split into fewer than three |
| ReSplit.LaterColonsStayInThirdPart | Perceptor/Prompt.py:54 | with three or more matches the split still has three parts, and the third keeps a `:` |
| ReSplit.HttpSchemeColonKept | Perceptor/Prompt.py:67 | the colon of a leading `http://` is not a separator of image descriptors |
| ReSplit.SecureSchemeColonKept | Perceptor/Prompt.py:67 | a colon preceded by `s` and followed by `//` is never a separator of image descriptors |
| ReSplit.ScanSkips | Perceptor/Prompt.py:54 | positions where the pattern does not match do not change the scan's result |
| ReSplit.NoMatchNoDelims | Perceptor/Prompt.py:54 | no match from `i` on means an empty match list from `i` on |
| ReSplit.NoColonNoSplit | Perceptor/Prompt.py:54 | a string without `:` has no matches and splits into itself alone |
| ReSplit.ColonCutsSlashes | Perceptor/Prompt.py:67 | `t + ":" + rest` begins with `//` only if `t` does |
| ReSplit.UnslashedColonSeparates | Perceptor/Prompt.py:67 | every colon not followed by `//` separates image descriptor fields |
| ReSplit.ColonFreeNoMatch | Perceptor/Prompt.py:67 | neither pattern matches inside a stretch without `:` |
| ReSplit.SchemeUrlNoMatch | Perceptor/Prompt.py:67 | a leading `http://` or `https://` address without further colons contains no separator |
| ReSplit.SplitAtTwoMatches | Perceptor/Prompt.py:54 | when the first two matches are at `n` and `m`, the split is the text before `n`, between them, and after `m` |
| ReSplit.SchemeUrlKept | Perceptor/Prompt.py:67 | `scheme://rest:weight:stop` splits into the whole address, the weight and the stop |
| Prompts.Pad | Perceptor/Prompt.py:55 | padding yields exactly three fields: the given parts first, then the defaults `''`, `'1'`, `'-inf'` in the open positions |
| Prompts.Descriptor | Perceptor/Prompt.py:54-59 | split, pad, unpack and strip (lines 67-70 and 76-77 for images): no field has whitespace at its ends, a descriptor without separator has weight `"1"`, one with fewer than two has stop `"-inf"` |
| Prompts.DescriptorFields | Perceptor/Prompt.py:54-59 | the text is the stripped text before the first separator; a missing weight is `"1"`; a missing stop is `"-inf"`; the stop runs to the end of the string |
| Prompts.DescriptorOfThreeParts | Perceptor/Prompt.py:56-59 | a three-part split gives those parts, stripped, as text, weight and stop |
| Prompts.NoSeparatorDefaults | Perceptor/Prompt.py:55-59 | with no separator the fields are the stripped descriptor, `"1"` and `"-inf"` |
| Prompts.FieldsStripped | Perceptor/Prompt.py:57-59 | the stored text and the strings given to `float()` are fixed points of `strip()` |
| Prompts.TextFieldsColonFree | Perceptor/Prompt.py:54-57 | for text prompts, neither the text nor the weight field contains `:` |
| Prompts.Repr | Perceptor/Prompt.py:25-26 | `__repr__` returns the stored descriptor string `prompt_string` |
| Prompts.Str | Perceptor/Prompt.py:28-29 | `__str__` returns the stored display text |
| Prompts.Numbers | Perceptor/Prompt.py:58-59 | conversion succeeds iff both fields convert; the weight's failure is the one raised when both fail |
| Prompts.TextPrompt | Perceptor/Prompt.py:53-63 | a text prompt is built iff weight and stop convert; `repr` is the descriptor, `str` the stripped text, and the numbers are the conversions; otherwise the first failing field is reported |
| Prompts.ImagePrompt | Perceptor/Prompt.py:66-81 | an image prompt is built iff the image is supplied or loads and both numbers convert; a missing image is reported first; `str` is the stripped text plus `" (semantic)"` |
| Prompts.TextPromptDisplay | Perceptor/Prompt.py:25-29 | a text prompt's `repr` is its descriptor, and its `str` has no whitespace at either end and no `:` |
| Prompts.ImagePromptDisplay | Perceptor/Prompt.py:81 | an image prompt's `str` ends in `" (semantic)"` after the stripped text field, and its `repr` is its descriptor |
| Prompts.TextPromptWithoutColon | Perceptor/Prompt.py:54-59 | a colon-free text descriptor gives text `strip(s)`, weight `float("1")` and stop `float("-inf")` |
| Prompts.ImagePromptWithoutColon | Perceptor/Prompt.py:67-81 | a colon-free image descriptor names the image by `strip(s)` and takes the default weight and stop |
| Prompts.TextPromptOfThreeParts | Perceptor/Prompt.py:54-63 | a descriptor split into three stripped, convertible parts gives exactly those parts as the prompt |
| Prompts.SchemeUrlImagePrompt | Perceptor/Prompt.py:67-81 | an `http(s)://` address with weight and stop is fetched whole and displayed as the address plus `" (semantic)"` |
| Prompts.SchemeUrlStripped | Perceptor/Prompt.py:70 | an address starting with its scheme and not ending in whitespace is unchanged by `strip()` |
| Prompts.ExtraFieldsStayInStop | Perceptor/Prompt.py:54-59 | with more than two separators, the stop field handed to `float()` contains a `:` |
| Prompts.ExtraFieldsRejectedByConversion | Perceptor/Prompt.py:58-59 | with four or more fields the text prompt fails, at the stop unless the weight already failed, provided `float()` refuses strings with `:` |
| PromptExamples.SplitSignMismatch | Perceptor/Prompt.py:54 | `"x:1:-0.5"` splits into `x`, `1`, `-0.5` |
| PromptExamples.SignMismatchAccepted | Perceptor/Prompt.py:48-59 | a positive weight with a negative stop is accepted, even though the docstring requires equal signs |
| PromptExamples.SplitCat | Perceptor/Prompt.py:54 | `"cat:0.5:0.1"` splits at both colons |
| PromptExamples.CatPrompt | Perceptor/Prompt.py:25-29 | the text prompt of `"cat:0.5:0.1"` has `str` `"cat"` and `repr` `"cat:0.5:0.1"` |
| PromptExamples.SunsetDefaults | Perceptor/Prompt.py:55-59 | a bare `"sunset"` takes weight `float("1")` and stop `float("-inf")` |
| PromptExamples.SplitUrl | Perceptor/Prompt.py:67 | `"http://example.com/img.png:2:0.3"` keeps the address whole |
| PromptExamples.OtherSchemeSplits | Perceptor/Prompt.py:67 | `"ftp://host/a.png"` is split at the scheme colon |
| PromptExamples.DefaultImagePromptParses | Perceptor/Prompt.py:66-81 | the default descriptor `"IMAGE PROMPT"` with a supplied image displays `"IMAGE PROMPT (semantic)"` with default weight and stop |
| PromptExamples.DefaultImagePromptPlain | Perceptor/Prompt.py:66 | the default descriptor has no `:` and no whitespace at its ends |

## Left out

- `spherical_dist_loss` and `Prompt.forward` (lines 10-13 and 31-39): floating-point tensor
  arithmetic on embeddings. `replace_grad` is not part of this model.
- The embeddings: tokenising and encoding the text, `cat_with_pad`, the image encoder,
  `format_input`, `detach` and `register_buffer` (lines 18-20, 62, 74-80). These are calls into
  code outside this file, so the `Prompt` record keeps only the descriptor, the display text and
  the two numbers.
- Loading the image with `fetch`, `Image.open` and `convert("RGB")` (line 72): I/O. It is
  the parameters `imageSupplied` and `loads`, and failure is one error,
  `ImageUnavailable`.
- `float()` (lines 58-59 and 76-77): the parameter `toFloat`. Which strings Python accepts as
  floats, and the values it produces, are not modelled. Its `ValueError` is an error value that
  names the field, not an exception.
- The default encoder list `CLIP_PERCEPTORS`, the device `DEVICE` and `input_axes` (lines 21,
  60-61 and 79): global configuration with no effect on parsing.
- The `Prompt` constructor (lines 16-23): the record is the `Prompt` datatype, and `__repr__`
  and `__str__` are `Repr` and `Str`.
