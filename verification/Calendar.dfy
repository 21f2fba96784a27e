/**
 * Calendar dates from seconds since 1970 (deps/ledger-zxlib/src/timeutils.c), against day counting in the
 * Gregorian calendar as in section 4.16 of the POSIX.1-2017 Base Definitions.
 */
module Calendar {
  import opened Bytes

  const EPOCH := 1970
  const TABLE_SIZE := 631
  const ROW := 14

  /** The table of days before each year from 1970 on, in rows of fourteen as in the program. */
  function YearLookup(i: nat): nat
    requires i < TABLE_SIZE
  {
    var j := i % ROW;
    if i < 322 then
      if i < 154 then
        if i < 70 then
          if i < 28 then
            if i < 14 then
              (if j == 0 then 0 else if j == 1 then 365 else if j == 2 then 730 else if j == 3 then 1096
                  else if j == 4 then 1461 else if j == 5 then 1826 else if j == 6 then 2191 else if j == 7 then 2557
                  else if j == 8 then 2922 else if j == 9 then 3287 else if j == 10 then 3652
                  else if j == 11 then 4018 else if j == 12 then 4383 else 4748)
            else
              (if j == 0 then 5113 else if j == 1 then 5479 else if j == 2 then 5844 else if j == 3 then 6209
                  else if j == 4 then 6574 else if j == 5 then 6940 else if j == 6 then 7305 else if j == 7 then 7670
                  else if j == 8 then 8035 else if j == 9 then 8401 else if j == 10 then 8766
                  else if j == 11 then 9131 else if j == 12 then 9496 else 9862)
          else
            if i < 42 then
              (if j == 0 then 10227 else if j == 1 then 10592 else if j == 2 then 10957 else if j == 3 then 11323
                  else if j == 4 then 11688 else if j == 5 then 12053 else if j == 6 then 12418
                  else if j == 7 then 12784 else if j == 8 then 13149 else if j == 9 then 13514
                  else if j == 10 then 13879 else if j == 11 then 14245 else if j == 12 then 14610 else 14975)
            else
              if i < 56 then
                (if j == 0 then 15340 else if j == 1 then 15706 else if j == 2 then 16071 else if j == 3 then 16436
                    else if j == 4 then 16801 else if j == 5 then 17167 else if j == 6 then 17532
                    else if j == 7 then 17897 else if j == 8 then 18262 else if j == 9 then 18628
                    else if j == 10 then 18993 else if j == 11 then 19358 else if j == 12 then 19723 else 20089)
              else
                (if j == 0 then 20454 else if j == 1 then 20819 else if j == 2 then 21184 else if j == 3 then 21550
                    else if j == 4 then 21915 else if j == 5 then 22280 else if j == 6 then 22645
                    else if j == 7 then 23011 else if j == 8 then 23376 else if j == 9 then 23741
                    else if j == 10 then 24106 else if j == 11 then 24472 else if j == 12 then 24837 else 25202)
        else
          if i < 112 then
            if i < 84 then
              (if j == 0 then 25567 else if j == 1 then 25933 else if j == 2 then 26298 else if j == 3 then 26663
                  else if j == 4 then 27028 else if j == 5 then 27394 else if j == 6 then 27759
                  else if j == 7 then 28124 else if j == 8 then 28489 else if j == 9 then 28855
                  else if j == 10 then 29220 else if j == 11 then 29585 else if j == 12 then 29950 else 30316)
            else
              if i < 98 then
                (if j == 0 then 30681 else if j == 1 then 31046 else if j == 2 then 31411 else if j == 3 then 31777
                    else if j == 4 then 32142 else if j == 5 then 32507 else if j == 6 then 32872
                    else if j == 7 then 33238 else if j == 8 then 33603 else if j == 9 then 33968
                    else if j == 10 then 34333 else if j == 11 then 34699 else if j == 12 then 35064 else 35429)
              else
                (if j == 0 then 35794 else if j == 1 then 36160 else if j == 2 then 36525 else if j == 3 then 36890
                    else if j == 4 then 37255 else if j == 5 then 37621 else if j == 6 then 37986
                    else if j == 7 then 38351 else if j == 8 then 38716 else if j == 9 then 39082
                    else if j == 10 then 39447 else if j == 11 then 39812 else if j == 12 then 40177 else 40543)
          else
            if i < 126 then
              (if j == 0 then 40908 else if j == 1 then 41273 else if j == 2 then 41638 else if j == 3 then 42004
                  else if j == 4 then 42369 else if j == 5 then 42734 else if j == 6 then 43099
                  else if j == 7 then 43465 else if j == 8 then 43830 else if j == 9 then 44195
                  else if j == 10 then 44560 else if j == 11 then 44926 else if j == 12 then 45291 else 45656)
            else
              if i < 140 then
                (if j == 0 then 46021 else if j == 1 then 46387 else if j == 2 then 46752 else if j == 3 then 47117
                    else if j == 4 then 47482 else if j == 5 then 47847 else if j == 6 then 48212
                    else if j == 7 then 48577 else if j == 8 then 48942 else if j == 9 then 49308
                    else if j == 10 then 49673 else if j == 11 then 50038 else if j == 12 then 50403 else 50769)
              else
                (if j == 0 then 51134 else if j == 1 then 51499 else if j == 2 then 51864 else if j == 3 then 52230
                    else if j == 4 then 52595 else if j == 5 then 52960 else if j == 6 then 53325
                    else if j == 7 then 53691 else if j == 8 then 54056 else if j == 9 then 54421
                    else if j == 10 then 54786 else if j == 11 then 55152 else if j == 12 then 55517 else 55882)
      else
        if i < 238 then
          if i < 196 then
            if i < 168 then
              (if j == 0 then 56247 else if j == 1 then 56613 else if j == 2 then 56978 else if j == 3 then 57343
                  else if j == 4 then 57708 else if j == 5 then 58074 else if j == 6 then 58439
                  else if j == 7 then 58804 else if j == 8 then 59169 else if j == 9 then 59535
                  else if j == 10 then 59900 else if j == 11 then 60265 else if j == 12 then 60630 else 60996)
            else
              if i < 182 then
                (if j == 0 then 61361 else if j == 1 then 61726 else if j == 2 then 62091 else if j == 3 then 62457
                    else if j == 4 then 62822 else if j == 5 then 63187 else if j == 6 then 63552
                    else if j == 7 then 63918 else if j == 8 then 64283 else if j == 9 then 64648
                    else if j == 10 then 65013 else if j == 11 then 65379 else if j == 12 then 65744 else 66109)
              else
                (if j == 0 then 66474 else if j == 1 then 66840 else if j == 2 then 67205 else if j == 3 then 67570
                    else if j == 4 then 67935 else if j == 5 then 68301 else if j == 6 then 68666
                    else if j == 7 then 69031 else if j == 8 then 69396 else if j == 9 then 69762
                    else if j == 10 then 70127 else if j == 11 then 70492 else if j == 12 then 70857 else 71223)
          else
            if i < 210 then
              (if j == 0 then 71588 else if j == 1 then 71953 else if j == 2 then 72318 else if j == 3 then 72684
                  else if j == 4 then 73049 else if j == 5 then 73414 else if j == 6 then 73779
                  else if j == 7 then 74145 else if j == 8 then 74510 else if j == 9 then 74875
                  else if j == 10 then 75240 else if j == 11 then 75606 else if j == 12 then 75971 else 76336)
            else
              if i < 224 then
                (if j == 0 then 76701 else if j == 1 then 77067 else if j == 2 then 77432 else if j == 3 then 77797
                    else if j == 4 then 78162 else if j == 5 then 78528 else if j == 6 then 78893
                    else if j == 7 then 79258 else if j == 8 then 79623 else if j == 9 then 79989
                    else if j == 10 then 80354 else if j == 11 then 80719 else if j == 12 then 81084 else 81450)
              else
                (if j == 0 then 81815 else if j == 1 then 82180 else if j == 2 then 82545 else if j == 3 then 82911
                    else if j == 4 then 83276 else if j == 5 then 83641 else if j == 6 then 84006
                    else if j == 7 then 84371 else if j == 8 then 84736 else if j == 9 then 85101
                    else if j == 10 then 85466 else if j == 11 then 85832 else if j == 12 then 86197 else 86562)
        else
          if i < 280 then
            if i < 252 then
              (if j == 0 then 86927 else if j == 1 then 87293 else if j == 2 then 87658 else if j == 3 then 88023
                  else if j == 4 then 88388 else if j == 5 then 88754 else if j == 6 then 89119
                  else if j == 7 then 89484 else if j == 8 then 89849 else if j == 9 then 90215
                  else if j == 10 then 90580 else if j == 11 then 90945 else if j == 12 then 91310 else 91676)
            else
              if i < 266 then
                (if j == 0 then 92041 else if j == 1 then 92406 else if j == 2 then 92771 else if j == 3 then 93137
                    else if j == 4 then 93502 else if j == 5 then 93867 else if j == 6 then 94232
                    else if j == 7 then 94598 else if j == 8 then 94963 else if j == 9 then 95328
                    else if j == 10 then 95693 else if j == 11 then 96059 else if j == 12 then 96424 else 96789)
              else
                (if j == 0 then 97154 else if j == 1 then 97520 else if j == 2 then 97885 else if j == 3 then 98250
                    else if j == 4 then 98615 else if j == 5 then 98981 else if j == 6 then 99346
                    else if j == 7 then 99711 else if j == 8 then 100076 else if j == 9 then 100442
                    else if j == 10 then 100807 else if j == 11 then 101172 else if j == 12 then 101537 else 101903)
          else
            if i < 294 then
              (if j == 0 then 102268 else if j == 1 then 102633 else if j == 2 then 102998 else if j == 3 then 103364
                  else if j == 4 then 103729 else if j == 5 then 104094 else if j == 6 then 104459
                  else if j == 7 then 104825 else if j == 8 then 105190 else if j == 9 then 105555
                  else if j == 10 then 105920 else if j == 11 then 106286 else if j == 12 then 106651 else 107016)
            else
              if i < 308 then
                (if j == 0 then 107381 else if j == 1 then 107747 else if j == 2 then 108112
                    else if j == 3 then 108477 else if j == 4 then 108842 else if j == 5 then 109208
                    else if j == 6 then 109573 else if j == 7 then 109938 else if j == 8 then 110303
                    else if j == 9 then 110669 else if j == 10 then 111034 else if j == 11 then 111399
                    else if j == 12 then 111764 else 112130)
              else
                (if j == 0 then 112495 else if j == 1 then 112860 else if j == 2 then 113225
                    else if j == 3 then 113591 else if j == 4 then 113956 else if j == 5 then 114321
                    else if j == 6 then 114686 else if j == 7 then 115052 else if j == 8 then 115417
                    else if j == 9 then 115782 else if j == 10 then 116147 else if j == 11 then 116513
                    else if j == 12 then 116878 else 117243)
    else
      if i < 476 then
        if i < 392 then
          if i < 350 then
            if i < 336 then
              (if j == 0 then 117608 else if j == 1 then 117974 else if j == 2 then 118339 else if j == 3 then 118704
                  else if j == 4 then 119069 else if j == 5 then 119435 else if j == 6 then 119800
                  else if j == 7 then 120165 else if j == 8 then 120530 else if j == 9 then 120895
                  else if j == 10 then 121260 else if j == 11 then 121625 else if j == 12 then 121990 else 122356)
            else
              (if j == 0 then 122721 else if j == 1 then 123086 else if j == 2 then 123451 else if j == 3 then 123817
                  else if j == 4 then 124182 else if j == 5 then 124547 else if j == 6 then 124912
                  else if j == 7 then 125278 else if j == 8 then 125643 else if j == 9 then 126008
                  else if j == 10 then 126373 else if j == 11 then 126739 else if j == 12 then 127104 else 127469)
          else
            if i < 364 then
              (if j == 0 then 127834 else if j == 1 then 128200 else if j == 2 then 128565 else if j == 3 then 128930
                  else if j == 4 then 129295 else if j == 5 then 129661 else if j == 6 then 130026
                  else if j == 7 then 130391 else if j == 8 then 130756 else if j == 9 then 131122
                  else if j == 10 then 131487 else if j == 11 then 131852 else if j == 12 then 132217 else 132583)
            else
              if i < 378 then
                (if j == 0 then 132948 else if j == 1 then 133313 else if j == 2 then 133678
                    else if j == 3 then 134044 else if j == 4 then 134409 else if j == 5 then 134774
                    else if j == 6 then 135139 else if j == 7 then 135505 else if j == 8 then 135870
                    else if j == 9 then 136235 else if j == 10 then 136600 else if j == 11 then 136966
                    else if j == 12 then 137331 else 137696)
              else
                (if j == 0 then 138061 else if j == 1 then 138427 else if j == 2 then 138792
                    else if j == 3 then 139157 else if j == 4 then 139522 else if j == 5 then 139888
                    else if j == 6 then 140253 else if j == 7 then 140618 else if j == 8 then 140983
                    else if j == 9 then 141349 else if j == 10 then 141714 else if j == 11 then 142079
                    else if j == 12 then 142444 else 142810)
        else
          if i < 434 then
            if i < 406 then
              (if j == 0 then 143175 else if j == 1 then 143540 else if j == 2 then 143905 else if j == 3 then 144271
                  else if j == 4 then 144636 else if j == 5 then 145001 else if j == 6 then 145366
                  else if j == 7 then 145732 else if j == 8 then 146097 else if j == 9 then 146462
                  else if j == 10 then 146827 else if j == 11 then 147193 else if j == 12 then 147558 else 147923)
            else
              if i < 420 then
                (if j == 0 then 148288 else if j == 1 then 148654 else if j == 2 then 149019
                    else if j == 3 then 149384 else if j == 4 then 149749 else if j == 5 then 150115
                    else if j == 6 then 150480 else if j == 7 then 150845 else if j == 8 then 151210
                    else if j == 9 then 151576 else if j == 10 then 151941 else if j == 11 then 152306
                    else if j == 12 then 152671 else 153037)
              else
                (if j == 0 then 153402 else if j == 1 then 153767 else if j == 2 then 154132
                    else if j == 3 then 154498 else if j == 4 then 154863 else if j == 5 then 155228
                    else if j == 6 then 155593 else if j == 7 then 155959 else if j == 8 then 156324
                    else if j == 9 then 156689 else if j == 10 then 157054 else if j == 11 then 157420
                    else if j == 12 then 157785 else 158150)
          else
            if i < 448 then
              (if j == 0 then 158515 else if j == 1 then 158881 else if j == 2 then 159246 else if j == 3 then 159611
                  else if j == 4 then 159976 else if j == 5 then 160342 else if j == 6 then 160707
                  else if j == 7 then 161072 else if j == 8 then 161437 else if j == 9 then 161803
                  else if j == 10 then 162168 else if j == 11 then 162533 else if j == 12 then 162898 else 163264)
            else
              if i < 462 then
                (if j == 0 then 163629 else if j == 1 then 163994 else if j == 2 then 164359
                    else if j == 3 then 164725 else if j == 4 then 165090 else if j == 5 then 165455
                    else if j == 6 then 165820 else if j == 7 then 166186 else if j == 8 then 166551
                    else if j == 9 then 166916 else if j == 10 then 167281 else if j == 11 then 167647
                    else if j == 12 then 168012 else 168377)
              else
                (if j == 0 then 168742 else if j == 1 then 169108 else if j == 2 then 169473
                    else if j == 3 then 169838 else if j == 4 then 170203 else if j == 5 then 170569
                    else if j == 6 then 170934 else if j == 7 then 171299 else if j == 8 then 171664
                    else if j == 9 then 172030 else if j == 10 then 172395 else if j == 11 then 172760
                    else if j == 12 then 173125 else 173491)
      else
        if i < 560 then
          if i < 518 then
            if i < 490 then
              (if j == 0 then 173856 else if j == 1 then 174221 else if j == 2 then 174586 else if j == 3 then 174952
                  else if j == 4 then 175317 else if j == 5 then 175682 else if j == 6 then 176047
                  else if j == 7 then 176413 else if j == 8 then 176778 else if j == 9 then 177143
                  else if j == 10 then 177508 else if j == 11 then 177874 else if j == 12 then 178239 else 178604)
            else
              if i < 504 then
                (if j == 0 then 178969 else if j == 1 then 179335 else if j == 2 then 179700
                    else if j == 3 then 180065 else if j == 4 then 180430 else if j == 5 then 180796
                    else if j == 6 then 181161 else if j == 7 then 181526 else if j == 8 then 181891
                    else if j == 9 then 182257 else if j == 10 then 182622 else if j == 11 then 182987
                    else if j == 12 then 183352 else 183718)
              else
                (if j == 0 then 184083 else if j == 1 then 184448 else if j == 2 then 184813
                    else if j == 3 then 185179 else if j == 4 then 185544 else if j == 5 then 185909
                    else if j == 6 then 186274 else if j == 7 then 186640 else if j == 8 then 187005
                    else if j == 9 then 187370 else if j == 10 then 187735 else if j == 11 then 188101
                    else if j == 12 then 188466 else 188831)
          else
            if i < 532 then
              (if j == 0 then 189196 else if j == 1 then 189562 else if j == 2 then 189927 else if j == 3 then 190292
                  else if j == 4 then 190657 else if j == 5 then 191023 else if j == 6 then 191388
                  else if j == 7 then 191753 else if j == 8 then 192118 else if j == 9 then 192484
                  else if j == 10 then 192849 else if j == 11 then 193214 else if j == 12 then 193579 else 193944)
            else
              if i < 546 then
                (if j == 0 then 194309 else if j == 1 then 194674 else if j == 2 then 195039
                    else if j == 3 then 195405 else if j == 4 then 195770 else if j == 5 then 196135
                    else if j == 6 then 196500 else if j == 7 then 196866 else if j == 8 then 197231
                    else if j == 9 then 197596 else if j == 10 then 197961 else if j == 11 then 198327
                    else if j == 12 then 198692 else 199057)
              else
                (if j == 0 then 199422 else if j == 1 then 199788 else if j == 2 then 200153
                    else if j == 3 then 200518 else if j == 4 then 200883 else if j == 5 then 201249
                    else if j == 6 then 201614 else if j == 7 then 201979 else if j == 8 then 202344
                    else if j == 9 then 202710 else if j == 10 then 203075 else if j == 11 then 203440
                    else if j == 12 then 203805 else 204171)
        else
          if i < 602 then
            if i < 574 then
              (if j == 0 then 204536 else if j == 1 then 204901 else if j == 2 then 205266 else if j == 3 then 205632
                  else if j == 4 then 205997 else if j == 5 then 206362 else if j == 6 then 206727
                  else if j == 7 then 207093 else if j == 8 then 207458 else if j == 9 then 207823
                  else if j == 10 then 208188 else if j == 11 then 208554 else if j == 12 then 208919 else 209284)
            else
              if i < 588 then
                (if j == 0 then 209649 else if j == 1 then 210015 else if j == 2 then 210380
                    else if j == 3 then 210745 else if j == 4 then 211110 else if j == 5 then 211476
                    else if j == 6 then 211841 else if j == 7 then 212206 else if j == 8 then 212571
                    else if j == 9 then 212937 else if j == 10 then 213302 else if j == 11 then 213667
                    else if j == 12 then 214032 else 214398)
              else
                (if j == 0 then 214763 else if j == 1 then 215128 else if j == 2 then 215493
                    else if j == 3 then 215859 else if j == 4 then 216224 else if j == 5 then 216589
                    else if j == 6 then 216954 else if j == 7 then 217320 else if j == 8 then 217685
                    else if j == 9 then 218050 else if j == 10 then 218415 else if j == 11 then 218781
                    else if j == 12 then 219146 else 219511)
          else
            if i < 616 then
              (if j == 0 then 219876 else if j == 1 then 220242 else if j == 2 then 220607 else if j == 3 then 220972
                  else if j == 4 then 221337 else if j == 5 then 221703 else if j == 6 then 222068
                  else if j == 7 then 222433 else if j == 8 then 222798 else if j == 9 then 223164
                  else if j == 10 then 223529 else if j == 11 then 223894 else if j == 12 then 224259 else 224625)
            else
              if i < 630 then
                (if j == 0 then 224990 else if j == 1 then 225355 else if j == 2 then 225720
                    else if j == 3 then 226086 else if j == 4 then 226451 else if j == 5 then 226816
                    else if j == 6 then 227181 else if j == 7 then 227547 else if j == 8 then 227912
                    else if j == 9 then 228277 else if j == 10 then 228642 else if j == 11 then 229008
                    else if j == 12 then 229373 else 229738)
              else
                (230103)
  }

  // ---------------------------------------------------------------- counting days

  predicate IsLeap(y: nat) { y % 4 == 0 && (y % 100 != 0 || y % 400 == 0) }

  function YearLength(y: nat): nat { if IsLeap(y) then 366 else 365 }

  /** The days before a year, counted year by year. */
  function DaysBeforeYear(y: nat): nat { if y <= EPOCH then 0 else DaysBeforeYear(y - 1) + YearLength(y - 1) }

  /** The same in closed form: one leap day every four years, but for most centuries. */
  function ClosedForm(y: nat): nat
    requires y >= EPOCH
  {
    365 * (y - 1970) + (y - 1969) / 4 - (y - 1901) / 100 + (y - 1601) / 400
  }

  lemma Quarter(y: nat)
    requires y >= EPOCH
    ensures (y - 1968) / 4 == (y - 1969) / 4 + if y % 4 == 0 then 1 else 0
  {
  }

  lemma Century(y: nat)
    requires y >= EPOCH
    ensures (y - 1900) / 100 == (y - 1901) / 100 + if y % 100 == 0 then 1 else 0
  {
  }

  lemma FourCenturies(y: nat)
    requires y >= EPOCH
    ensures (y - 1600) / 400 == (y - 1601) / 400 + if y % 400 == 0 then 1 else 0
  {
  }

  lemma LeapParts(y: nat)
    ensures YearLength(y)
         == 365 + (if y % 4 == 0 then 1 else 0) - (if y % 100 == 0 then 1 else 0) + (if y % 400 == 0 then 1 else 0)
  {
    assert y % 100 == 0 ==> y % 4 == 0;
    assert y % 400 == 0 ==> y % 100 == 0;
  }

  lemma ClosedFormStep(y: nat)
    requires y >= EPOCH
    ensures ClosedForm(y + 1) == ClosedForm(y) + YearLength(y)
  {
    hide YearLength;
    LeapParts(y);
    Quarter(y);
    Century(y);
    FourCenturies(y);
  }

  lemma {:induction false} DaysAreClosedForm(y: nat)
    requires y >= EPOCH
    ensures DaysBeforeYear(y) == ClosedForm(y)
  {
    if y > EPOCH {
      hide ClosedForm, YearLength;
      DaysAreClosedForm(y - 1);
      ClosedFormStep(y - 1);
    } else {
      assert ClosedForm(EPOCH) == 0;
    }
  }

  /** `q`, `c` and `f` count the fourth years, the centuries and the fourth centuries before year `i`. */
  predicate Counted(i: nat, q: nat, c: nat, f: nat) {
    4 * q <= i + 1 < 4 * q + 4 && 100 * c <= i + 69 < 100 * c + 100 && 400 * f <= i + 369 < 400 * f + 400
  }

  lemma Entries1970(i: nat, q: nat, c: nat, f: nat)
    requires 0 <= i < 42 && Counted(i, q, c, f)
    ensures YearLookup(i) == 365 * i + q - c + f
  {
  }

  lemma Entries2012(i: nat, q: nat, c: nat, f: nat)
    requires 42 <= i < 84 && Counted(i, q, c, f)
    ensures YearLookup(i) == 365 * i + q - c + f
  {
  }

  lemma Entries2054(i: nat, q: nat, c: nat, f: nat)
    requires 84 <= i < 126 && Counted(i, q, c, f)
    ensures YearLookup(i) == 365 * i + q - c + f
  {
  }

  lemma Entries2096(i: nat, q: nat, c: nat, f: nat)
    requires 126 <= i < 168 && Counted(i, q, c, f)
    ensures YearLookup(i) == 365 * i + q - c + f
  {
  }

  lemma Entries2138(i: nat, q: nat, c: nat, f: nat)
    requires 168 <= i < 210 && Counted(i, q, c, f)
    ensures YearLookup(i) == 365 * i + q - c + f
  {
  }

  lemma Entries2180(i: nat, q: nat, c: nat, f: nat)
    requires 210 <= i < 252 && Counted(i, q, c, f)
    ensures YearLookup(i) == 365 * i + q - c + f
  {
  }

  lemma Entries2222(i: nat, q: nat, c: nat, f: nat)
    requires 252 <= i < 294 && Counted(i, q, c, f)
    ensures YearLookup(i) == 365 * i + q - c + f
  {
  }

  lemma Entries2264(i: nat, q: nat, c: nat, f: nat)
    requires 294 <= i < 336 && Counted(i, q, c, f)
    ensures YearLookup(i) == 365 * i + q - c + f
  {
  }

  lemma Entries2306(i: nat, q: nat, c: nat, f: nat)
    requires 336 <= i < 378 && Counted(i, q, c, f)
    ensures YearLookup(i) == 365 * i + q - c + f
  {
  }

  lemma Entries2348(i: nat, q: nat, c: nat, f: nat)
    requires 378 <= i < 420 && Counted(i, q, c, f)
    ensures YearLookup(i) == 365 * i + q - c + f
  {
  }

  lemma Entries2390(i: nat, q: nat, c: nat, f: nat)
    requires 420 <= i < 462 && Counted(i, q, c, f)
    ensures YearLookup(i) == 365 * i + q - c + f
  {
  }

  lemma Entries2432(i: nat, q: nat, c: nat, f: nat)
    requires 462 <= i < 504 && Counted(i, q, c, f)
    ensures YearLookup(i) == 365 * i + q - c + f
  {
  }

  lemma Entries2474(i: nat, q: nat, c: nat, f: nat)
    requires 504 <= i < 546 && Counted(i, q, c, f)
    ensures YearLookup(i) == 365 * i + q - c + f
  {
  }

  lemma Entries2516(i: nat, q: nat, c: nat, f: nat)
    requires 546 <= i < 588 && Counted(i, q, c, f)
    ensures YearLookup(i) == 365 * i + q - c + f
  {
  }

  lemma Entries2558(i: nat, q: nat, c: nat, f: nat)
    requires 588 <= i < 630 && Counted(i, q, c, f)
    ensures YearLookup(i) == 365 * i + q - c + f
  {
  }

  lemma Entries2600(i: nat, q: nat, c: nat, f: nat)
    requires 630 <= i < 631 && Counted(i, q, c, f)
    ensures YearLookup(i) == 365 * i + q - c + f
  {
  }

  /** Days before the `i`-th year of the table. */
  function YearStart(i: nat): nat { DaysBeforeYear(EPOCH + i) }

  /** Every entry of the table is the sum of the lengths of the years before it. */
  lemma YearTable(i: nat)
    requires i < TABLE_SIZE
    ensures YearLookup(i) == YearStart(i) == DaysBeforeYear(EPOCH + i)
  {
    hide YearLookup;
    DaysAreClosedForm(EPOCH + i);
    var q, c, f := (i + 1) / 4, (i + 69) / 100, (i + 369) / 400;
    assert Counted(i, q, c, f);
    if i < 42 {
      Entries1970(i, q, c, f);
    } else if i < 84 {
      Entries2012(i, q, c, f);
    } else if i < 126 {
      Entries2054(i, q, c, f);
    } else if i < 168 {
      Entries2096(i, q, c, f);
    } else if i < 210 {
      Entries2138(i, q, c, f);
    } else if i < 252 {
      Entries2180(i, q, c, f);
    } else if i < 294 {
      Entries2222(i, q, c, f);
    } else if i < 336 {
      Entries2264(i, q, c, f);
    } else if i < 378 {
      Entries2306(i, q, c, f);
    } else if i < 420 {
      Entries2348(i, q, c, f);
    } else if i < 462 {
      Entries2390(i, q, c, f);
    } else if i < 504 {
      Entries2432(i, q, c, f);
    } else if i < 546 {
      Entries2474(i, q, c, f);
    } else if i < 588 {
      Entries2516(i, q, c, f);
    } else if i < 630 {
      Entries2558(i, q, c, f);
    } else {
      Entries2600(i, q, c, f);
    }
  }

  // ---------------------------------------------------------------- dates

  datatype Date = Date(sec: nat, min: nat, hour: nat, day: nat, mon: nat, year: nat)

  const MONTH_DAYS: seq<nat> := [31, 28, 31, 30, 31, 30, 31, 31, 30, 31, 30, 31]

  /** The length of a month, counted from 0. */
  function MonthLength(y: nat, m: nat): nat
    requires m < 12
  {
    MONTH_DAYS[m] + if m == 1 && IsLeap(y) then 1 else 0
  }

  function DaysBeforeMonth(y: nat, m: nat): nat
    requires m <= 12
  {
    if m == 0 then 0 else DaysBeforeMonth(y, m - 1) + MonthLength(y, m - 1)
  }

  lemma MonthsMakeYear(y: nat)
    ensures DaysBeforeMonth(y, 12) == YearLength(y)
  {
    assert DaysBeforeMonth(y, 1) == 31;
    assert DaysBeforeMonth(y, 2) == 59 + if IsLeap(y) then 1 else 0;
    assert DaysBeforeMonth(y, 4) == DaysBeforeMonth(y, 2) + 61;
    assert DaysBeforeMonth(y, 6) == DaysBeforeMonth(y, 4) + 61;
    assert DaysBeforeMonth(y, 8) == DaysBeforeMonth(y, 6) + 62;
    assert DaysBeforeMonth(y, 10) == DaysBeforeMonth(y, 8) + 61;
  }

  /** The fields lie in their calendar ranges; months and days count from 1. */
  predicate IsDate(d: Date) {
    && d.sec < 60 && d.min < 60 && d.hour < 24 && 1 <= d.mon <= 12
    && 1 <= d.day <= MonthLength(d.year, d.mon - 1) && d.year >= EPOCH
  }

  /** Days since the first of January 1970. */
  function DayNumber(d: Date): nat
    requires IsDate(d)
  {
    DaysBeforeYear(d.year) + DaysBeforeMonth(d.year, d.mon - 1) + (d.day - 1)
  }

  /** Seconds since the start of 1970. */
  function Seconds(d: Date): nat
    requires IsDate(d)
  {
    ((DayNumber(d) * 24 + d.hour) * 60 + d.min) * 60 + d.sec
  }

  lemma {:induction false} YearsGrow(y: nat, z: nat)
    requires EPOCH <= y < z
    ensures DaysBeforeYear(y) + YearLength(y) <= DaysBeforeYear(z)
    decreases z
  {
    hide YearLength;
    if y < z - 1 { YearsGrow(y, z - 1); }
  }

  lemma {:induction false} MonthsGrow(y: nat, m: nat, n: nat)
    requires m < n <= 12
    ensures DaysBeforeMonth(y, m) + MonthLength(y, m) <= DaysBeforeMonth(y, n)
    decreases n
  {
    hide MonthLength;
    if m < n - 1 { MonthsGrow(y, m, n - 1); }
  }

  lemma DayInYear(d: Date)
    requires IsDate(d)
    ensures DaysBeforeYear(d.year) <= DayNumber(d) < DaysBeforeYear(d.year) + YearLength(d.year)
  {
    hide YearLength, MonthLength, DaysBeforeYear;
    MonthsGrow(d.year, d.mon - 1, 12);
    MonthsMakeYear(d.year);
  }

  lemma SameDay(d: Date, e: Date)
    requires IsDate(d) && IsDate(e) && DayNumber(d) == DayNumber(e)
    ensures d.year == e.year && d.mon == e.mon && d.day == e.day
  {
    hide YearLength, MonthLength, DaysBeforeYear, DaysBeforeMonth;
    DayInYear(d);
    DayInYear(e);
    if d.year < e.year {
      YearsGrow(d.year, e.year);
    } else if e.year < d.year {
      YearsGrow(e.year, d.year);
    } else if d.mon < e.mon {
      MonthsGrow(d.year, d.mon - 1, e.mon - 1);
    } else if e.mon < d.mon {
      MonthsGrow(d.year, e.mon - 1, d.mon - 1);
    }
  }

  lemma SameOfDay(a: nat, h: nat, m: nat, s: nat, b: nat, i: nat, n: nat, t: nat)
    requires h < 24 && m < 60 && s < 60 && i < 24 && n < 60 && t < 60
    requires ((a * 24 + h) * 60 + m) * 60 + s == ((b * 24 + i) * 60 + n) * 60 + t
    ensures a == b && h == i && m == n && s == t
  {
    assert (a * 24 + h) * 60 + m == (b * 24 + i) * 60 + n;
    assert a * 24 + h == b * 24 + i;
  }

  /** A moment has one date only. */
  lemma SecondsInjective(d: Date, e: Date)
    requires IsDate(d) && IsDate(e) && Seconds(d) == Seconds(e)
    ensures d == e
  {
    hide DayNumber;
    SameOfDay(DayNumber(d), d.hour, d.min, d.sec, DayNumber(e), e.hour, e.min, e.sec);
    SameDay(d, e);
  }

  // ---------------------------------------------------------------- the same days by a formula

  /** Days of the years up to and with `y`, counted from the year 1. */
  function YearSum(y: nat): int { 365 * y + y / 4 - y / 100 + y / 400 }

  /** Days since the start of 1970 with years that begin in March, so that the leap day comes last. */
  function CivilDay(day: nat, mon: nat, year: nat): int
    requires 1 <= mon <= 12 && year > 0
  {
    var y, m := if mon > 2 then year else year - 1, if mon > 2 then mon - 3 else mon + 9;
    YearSum(y) + (153 * m + 2) / 5 + day - 719469
  }

  lemma YearSumStep(y: nat)
    requires y > 0
    ensures YearSum(y) == YearSum(y - 1) + YearLength(y)
  {
    hide YearLength;
    LeapParts(y);
    EveryFour(y);
    EveryHundred(y);
    EveryFourHundred(y);
  }

  lemma EveryFour(y: nat)
    requires y > 0
    ensures y / 4 == (y - 1) / 4 + if y % 4 == 0 then 1 else 0
  {
  }

  lemma EveryHundred(y: nat)
    requires y > 0
    ensures y / 100 == (y - 1) / 100 + if y % 100 == 0 then 1 else 0
  {
  }

  lemma EveryFourHundred(y: nat)
    requires y > 0
    ensures y / 400 == (y - 1) / 400 + if y % 400 == 0 then 1 else 0
  {
  }

  lemma SinceTheYearOne(y: nat)
    requires y >= EPOCH
    ensures (y - 1969) / 4 == (y - 1) / 4 - 492 && (y - 1901) / 100 == (y - 1) / 100 - 19
    ensures (y - 1601) / 400 == (y - 1) / 400 - 4
  {
  }

  lemma YearsAreSums(y: nat)
    requires y >= EPOCH
    ensures DaysBeforeYear(y) == YearSum(y - 1) - 719162
  {
    hide DaysBeforeYear;
    DaysAreClosedForm(y);
    SinceTheYearOne(y);
  }

  /** The days before each month, by the formula. */
  lemma MonthLaw(y: nat, m: nat)
    requires m < 12
    ensures DaysBeforeMonth(y, m) + 306
         == if m < 2 then (153 * (m + 10) + 2) / 5 else YearLength(y) + (153 * (m - 2) + 2) / 5
  {
    hide MonthLength, DaysBeforeMonth;
    NoMonths(y);
    Months(y);
    MonthStep(y, 0);
    MonthStep(y, 1);
    MonthStep(y, 2);
    MonthStep(y, 3);
    MonthStep(y, 4);
    MonthStep(y, 5);
    MonthStep(y, 6);
    MonthStep(y, 7);
    MonthStep(y, 8);
    MonthStep(y, 9);
    MonthStep(y, 10);
  }

  lemma Months(y: nat)
    ensures MonthLength(y, 0) == 31 && MonthLength(y, 1) == YearLength(y) - 337 && MonthLength(y, 2) == 31
    ensures MonthLength(y, 3) == 30 && MonthLength(y, 4) == 31 && MonthLength(y, 5) == 30 && MonthLength(y, 6) == 31
    ensures MonthLength(y, 7) == 31 && MonthLength(y, 8) == 30 && MonthLength(y, 9) == 31 && MonthLength(y, 10) == 30
    ensures MonthLength(y, 11) == 31
  {
  }

  /** Counting days month by month, year by year, gives what the formula gives. */
  lemma DayIsCivil(d: Date)
    requires IsDate(d)
    ensures DayNumber(d) == CivilDay(d.day, d.mon, d.year)
  {
    hide MonthLength, DaysBeforeMonth, DaysBeforeYear, YearLength, YearSum;
    YearsAreSums(d.year);
    YearSumStep(d.year);
    MonthLaw(d.year, d.mon - 1);
  }

  // ---------------------------------------------------------------- the program

  const LAST_DAY := 230103

  lemma TableEnds()
    ensures DaysBeforeYear(EPOCH) == 0 && DaysBeforeYear(2600) == LAST_DAY
  {
    YearTable(TABLE_SIZE - 1);
  }

  /** The search in the year table. */
  method FindYear(days: nat) returns (year: nat)
    ensures year <= TABLE_SIZE
    ensures forall i :: 0 <= i < year ==> YearStart(i) <= days
    ensures year < TABLE_SIZE ==> days < YearStart(year)
  {
    hide YearLookup, YearStart;
    year := 0;
    while year < TABLE_SIZE && YearLookup(year) <= days
      invariant year <= TABLE_SIZE && forall i :: 0 <= i < year ==> YearStart(i) <= days
    {
      YearTable(year);
      year := year + 1;
    }
    if year < TABLE_SIZE { YearTable(year); }
  }

  /** The loop over the months: takes their lengths off the day of the year. */
  method FindMonth(year: nat, dayOfYear: nat) returns (mon: nat, day: nat)
    requires 1 <= dayOfYear <= YearLength(year)
    ensures mon < 12 && 1 <= day <= MonthLength(year, mon) && DaysBeforeMonth(year, mon) + day == dayOfYear
  {
    hide YearLength, DaysBeforeMonth;
    var leap := if IsLeap(year) then 1 else 0;
    mon, day := 0, dayOfYear;
    NoMonths(year);
    MonthsMakeYear(year);
    while mon < 12
      invariant mon <= 12 && 1 <= day && DaysBeforeMonth(year, mon) + day == dayOfYear
    {
      var length := MONTH_DAYS[mon] + if mon == 1 then leap else 0;
      assert length == MonthLength(year, mon);
      MonthStep(year, mon);
      if day <= length { break; }
      day := day - length;
      mon := mon + 1;
    }
  }

  lemma NoMonths(y: nat)
    ensures DaysBeforeMonth(y, 0) == 0
  {
  }

  lemma MonthStep(y: nat, m: nat)
    requires m < 12
    ensures DaysBeforeMonth(y, m + 1) == DaysBeforeMonth(y, m) + MonthLength(y, m)
  {
  }

  /** The time of day, taken off by remainders. */
  method SplitTime(time: nat) returns (days: nat, hour: nat, min: nat, sec: nat)
    ensures hour < 24 && min < 60 && sec < 60 && time == ((days * 24 + hour) * 60 + min) * 60 + sec
  {
    var t := time;
    sec := t % 60;
    t := (t - sec) / 60;
    min := t % 60;
    t := (t - min) / 60;
    hour := t % 24;
    days := (t - hour) / 24;
  }

  /**
   * Every moment before the year 2600 is turned into its date, and none from there on; that the date is the
   * only one of the moment is `SecondsInjective`. The day is also the one that the formula gives.
   */
  method ExtractTime(time: nat) returns (r: Option<Date>)
    ensures r.Some? <==> time < LAST_DAY * 86400
    ensures r.Some? ==> IsDate(r.value) && Seconds(r.value) == time && r.value.year < 2600
    ensures r.Some? ==> CivilDay(r.value.day, r.value.mon, r.value.year) == time / 86400
  {
    hide DaysBeforeYear, YearLength, MonthLength, DaysBeforeMonth, YearLookup;
    var t, hour, min, sec := SplitTime(time);
    assert time < LAST_DAY * 86400 <==> t < LAST_DAY;
    TableEnds();
    var year := FindYear(t);
    if year == 0 || year == TABLE_SIZE {
      assert year == TABLE_SIZE ==> YearStart(630) <= t;
      return None;
    }
    year := year - 1;
    YearTable(year);
    YearStep(EPOCH + year);
    var dayOfYear := t - YearLookup(year) + 1;
    if year < 629 { YearsGrow(EPOCH + year + 1, 2600); }
    var mon, day := FindMonth(EPOCH + year, dayOfYear);
    var date := Date(sec, min, hour, day, mon + 1, EPOCH + year);
    DayIsCivil(date);
    DayOfSeconds(t, hour, min, sec);
    r := Some(date);
  }

  lemma DayOfSeconds(days: nat, hour: nat, min: nat, sec: nat)
    requires hour < 24 && min < 60 && sec < 60
    ensures (((days * 24 + hour) * 60 + min) * 60 + sec) / 86400 == days
  {
    assert ((days * 24 + hour) * 60 + min) * 60 + sec == 86400 * days + (hour * 3600 + min * 60 + sec);
  }

  lemma YearStep(y: nat)
    requires y >= EPOCH
    ensures DaysBeforeYear(y + 1) == DaysBeforeYear(y) + YearLength(y)
  {
  }
}
