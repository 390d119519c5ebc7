# Korean pronunciation pipeline (index.ts), modelled in Dafny

`index.ts` turns a string of composed Hangul syllables into a pronunciation.
It works in four steps:

1. It checks that every UTF-16 code unit is a composed syllable (`isKoreanWord`).
2. It splits each syllable into onset, nucleus and coda (`parseKorean`, which yields a `KRCH` record).
3. It runs four in-place rewrite passes over the array of records, in a fixed order: palatalization, aspiration, the syllable-ending rule, then tensification.
4. It prints every record's three letters (`getOrigins`).

The model covers all of this except the printing.

- `hangul.dfy`, module `Hangul`, holds:
  - the symbol tables (`UniKR`);
  - the `KRCH` record, as `Krch`;
  - the validator and the decoder.

  Decoding follows the syllable arithmetic of the Unicode Standard, section 3.12. Two lemmas show the decoder is lossless and that it inverts composition.
- `rules.dfy`, module `Rules`, states each pass as a pure function:
  - The three pair passes scan the pairs (i, i+1) from left to right. Each is a map over the pairs of the original sequence, `Pairwise`, driven by a per-pair rule.
  - The ending rule maps over every unit.

  The lemmas give, for each pass, its per-pair table, what it may change, that it completes, and that it keeps fields inside their tables. Aspiration, the ending rule and tensification are proved idempotent. Palatalization is not: clearing a coda can un-skip the pair before it, and `PalatalizationNotIdempotent` exhibits such a sequence.
- `passes.dfy`, module `Passes`, holds the passes as the source runs them: in-place loops over an `array<Krch>`. Each is proved equal to its function in `Rules`.
- `pipeline.dfy`, module `Pipeline`, holds `pipe`. It proves:
  - rejection exactly on invalid input;
  - the result is the passes' composition over the decoded word;
  - the shape of that result.
- `samples.dfy`, module `Samples`, holds the words from the comment above `pipe` and from `main`, run through the model, plus 닫힌 as an extra example for the palatalization guard at index.ts:122-131.

A coda has three states:

- `Absent`: the JavaScript `null` that the decoder stores.
- `Cleared`: the empty string that the rewrite rules store.
- `Final(c)`: a letter.

The two spellings of "no coda" print alike. However, palatalization's skip test compares the next unit's coda with `''` only, so the model keeps the two apart.

## Model

| member | source | states |
|---|---|---|
| Hangul.IsKoreanWord | index.ts:47-55 | The result is true exactly when every code unit lies in 44032..55203. The empty string gives true. |
| Hangul.DecodeIndices | index.ts:61-65 | The onset, nucleus and coda indices computed from the offset are within the 19/21/28 tables. The nucleus index equals (offset mod 588) / 28. The indices recompose the code point. |
| Hangul.ParseKoreanInTables | index.ts:58-72 | Every decoded field is drawn from its table. The coda is never the empty string. It is null exactly when (c - 44032) mod 28 = 0. |
| Hangul.ParsedIndices | index.ts:58-72 | The decoded record is the tables read at the three in-range indices. The indices recompose the code point. |
| Hangul.ParseKoreanLossless | index.ts:58-72 | Decoding loses nothing: the code point recomposed from the decoded record is the input code point. |
| Hangul.ParseKoreanOfCode | index.ts:58-72 | Every well-formed record is the decoding of its recomposed code point, with an empty-string coda read back as null. |
| Hangul.Origins | index.ts:41-43 | getOrigins gives three strings: the onset, the nucleus, and the coda, which is '' exactly when there is no coda (null or ''). |
| Rules.PairwiseAt | index.ts:120-156 | After a pair scan, pair (k, k+1) holds the rule applied to the original coda of unit k and the original unit k+1. |
| Rules.PairwiseIdle | index.ts:120-156 | A scan in which no pair's rule changes anything leaves the sequence unchanged. |
| Rules.PalatalizationPair | index.ts:119-157 | The palatalization table for one pair. Skipped pairs are untouched. A coda ㅌ becomes '' and the onset ㅊ. A coda ㄾ becomes ㄹ and the onset ㅊ. A coda ㄷ becomes '' with the onset ㅈ before ㅇ, or the onset ㅊ before ㅎ. Anything else is untouched. |
| Rules.PalatalizationChangesOnly | index.ts:122-155 | A pair changes only if it is not skipped and its coda is ㄷ, ㅌ or ㄾ. The coda then becomes '' or ㄹ, and the onset ㅈ or ㅊ. |
| Rules.PalatalizationComplete | index.ts:122-155 | After the pass, no inspected pair still ends in ㅌ or ㄾ, and no ㄷ remains before ㅇ or ㅎ. |
| Rules.PalatalSkipOnDecoded | index.ts:122-131 | For a unit whose coda is not '' (every decoded unit), the skip test means "the nucleus is not one of ㅣㅑㅕㅛㅠㅒㅖ". |
| Rules.PalatalizationNotIdempotent | index.ts:122-155 | A second palatalization pass can change a word: when pair (1, 2) clears the coda of unit 1, pair (0, 1) is no longer skipped. |
| Pipeline.DecodedPalatalSkip | index.ts:122-131 | On the word pipe decodes, pair (k, k+1) is skipped exactly when the nucleus of syllable k+1 is not one of ㅣㅑㅕㅛㅠㅒㅖ. |
| Rules.PalatalizationSeesSpelling | index.ts:130-139 | Palatalization can tell a null coda from an empty-string coda. The two sequences differ only in that spelling but come out different. |
| Rules.AspirationRuleMatchesTable | index.ts:194-259 | The aspiration rule agrees with the two-branch table. |
| Rules.AspirationPair | index.ts:192-262 | Aspiration, pair by pair. Before the onset ㅎ, the codas ㄱㄷㅂㅈㄲㄵㄺㄼ lose their stop and the onset becomes ㅋㅌㅍㅊ. Otherwise, the codas ㅎㄶㅀ become '', ㄴ or ㄹ, and a following ㄱㄷㅂㅈ becomes ㅋㅌㅍㅊ. All else is unchanged. |
| Rules.AspirationRuleApplies | index.ts:194-259 | The rule changes a pair exactly when the pair is one of those listed. Its output is never such a pair. |
| Rules.AspirationComplete | index.ts:192-262 | After aspiration, no pair is left that aspiration would rewrite. |
| Rules.AspirationIdempotent | index.ts:192-262 | A second aspiration pass changes nothing. |
| Rules.EndingRule | index.ts:75-116 | The sixteen simple codas are mapped to the seven representatives ㄱㄴㄷㄹㅁㅂㅇ, and only they are. Null, '' and compound codas pass unchanged. |
| Rules.Neutralized | index.ts:75-116 | The forEach keeps the length, and every onset and nucleus. |
| Rules.EndingRuleIdempotent | index.ts:75-116 | Applying the ending rule twice is the same as applying it once. |
| Rules.NeutralizedCodas | index.ts:75-116 | After the pass, every coda is a representative or one the rule does not rewrite. A second pass changes nothing. |
| Rules.TensedOnset | index.ts:169-185 | ㄱㄷㅂㅅㅈ map to ㄲㄸㅃㅆㅉ. An onset changes exactly when it is one of these, and the result is never plain. |
| Rules.TensificationPair | index.ts:160-189 | Tensification keeps every coda and the first onset. Onset k+1 changes exactly when it is plain and coda k is one of ㄱㄷㅂㄹㄴㅁ, and it then becomes its tense counterpart. |
| Rules.TensificationKeepsCodas | index.ts:160-189 | Tensification writes no coda. |
| Rules.TensificationComplete | index.ts:160-189 | After the pass, no plain onset follows a tensing coda. A second pass changes nothing. |
| Rules.LaterPassesIgnoreSpelling | index.ts:160-262 | Aspiration, the ending rule and tensification treat null and '' codas alike: inputs that differ only in that spelling give outputs that differ only in it. |
| Rules.PassesKeepWellFormed | index.ts:119-262 | Each of the four passes keeps every onset, nucleus and coda inside its table. |
| Passes.RewritePairs | index.ts:120-156 | The in-place loop `for (i=0, j=1; j<length; i++, j++)` leaves the array equal to the pairwise map over its old contents. |
| Passes.Palatalization | index.ts:119-157 | The in-place pass leaves the array equal to Palatalized of its old contents. |
| Passes.Aspiration | index.ts:192-262 | The in-place pass leaves the array equal to Aspirated of its old contents. |
| Passes.Tensification | index.ts:160-189 | The in-place pass leaves the array equal to Tensified of its old contents. |
| Passes.SyllableEndingRule | index.ts:75-116 | The in-place forEach leaves the array equal to Neutralized of its old contents. |
| Pipeline.DecodeWord | index.ts:283-287 | The decoded array has one record per code unit. Every record is inside the tables, and no coda is ''. |
| Pipeline.ParseAll | index.ts:283-287 | The decoding loop of pipe builds exactly the decoded word: one record per code unit, record i being the decoding of code unit i. |
| Pipeline.Pipe | index.ts:276-306 | pipe rejects exactly the inputs that are not all syllables. Otherwise it returns palatalization, aspiration, the ending rule and tensification, in that order, applied to the decoded word. |
| Pipeline.PronouncedShape | index.ts:276-306 | pipe's output has one record per input unit and keeps each decoded nucleus. Every field is inside its table, every coda is fixed by the ending rule, and no plain onset follows a tensing coda. |
| Samples.Byeochi | index.ts:268-270 | 볕이 prints as 벼치. |
| Samples.Ireoke | index.ts:272-274 | 이렇게 prints as 이러케. |
| Samples.EndingRuleFirstGoesWrong | index.ts:265-274 | With the ending rule run first, 볕이 would print as 벼지, and 이렇게 would come out as 이럳께. |
| Samples.Guji | index.ts:310 | 굳이, from the sample sentence, prints as 구지. |
| Samples.Damtta | index.ts:310 | 담다, from the sample sentence, comes out exactly as 담따. |
| Samples.Dachin | index.ts:122-131 | A coda on the second unit does not block palatalization: 닫힌 prints as 다친. |

## Left out

- Printing: pipe prints `getOrigins().toString()` for every record and returns nothing. The model returns the records instead (`Pipeline.Pipe`), and `Hangul.Origins` models getOrigins. Printing itself is I/O.
- `main` and its console output: only words from its sample sentence are used, in `Samples`.
- Math.floor on doubles: it is modelled as division on non-negative integers. The operands are never negative.
- Input: it is a sequence of UTF-16 code units, as JavaScript indexes a string. Characters outside the Basic Multilingual Plane appear as two surrogate units, both outside the syllable block, so the validator rejects them.
- Hangul.ParseKorean: it has no ensures of its own. Its properties are stated by `ParseKoreanInTables`, `ParsedIndices`, `ParseKoreanLossless` and `ParseKoreanOfCode`.
- Hangul.ParseKorean: it requires a code unit inside the syllable block. For other input the source would read `undefined` from the tables, but pipe never passes such input.
- KRCH objects: they are modelled as record values in an `array<Krch>`. The source creates one object per slot and never shares one, so in-place field updates and whole-record updates behave alike. Aliasing between slots is not modelled.
- Cluster simplification, n-insertion, liaison and recomposition into a string: `index.ts` has none of them.
- The palatalization skip test: the comment at index.ts:121 says a pair is skipped when the next nucleus is not a front vowel OR the next unit has a coda. The code uses `&&` and compares the coda with `''`, so a coda on the next unit never blocks. The model follows the code (`Rules.PalatalSkip`, `Samples.Dachin`). For a word such as 닫힌 → 다친, the code's behaviour is the expected pronunciation, so this is not listed as a defect.
